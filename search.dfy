/**
 * The text helpers of the search engine: a case-insensitive comparison,
 * locating the n-th non-blank line of a text, and cutting a query or a text
 * into alphabetic words.
 *
 * Words are specified with `Split`, the pieces of a string between separator
 * characters: a word is a non-empty piece when every character that is not a
 * letter separates.
 */
module Search {
  import opened CLib

  /** `tolower` applied to every character. */
  function Lower(s: string): string {
    seq(|s|, k requires 0 <= k < |s| => ToLower(s[k]))
  }

  /**
   * `LowerEqual(str1, str2)`: `str1` lower-cased is `str2`.  Only the first
   * argument is lowered, and strings of different lengths never match.
   */
  method LowerEqual(a: string, b: string) returns (equal: bool)
    ensures equal <==> Lower(a) == b
  {
    if |a| != |b| {
      return false;
    }
    for i := 0 to |a|
      invariant forall k | 0 <= k < i :: ToLower(a[k]) == b[k]
    {
      if ToLower(a[i]) != b[i] {
        assert Lower(a)[i] != b[i];
        return false;
      }
    }
    assert forall k | 0 <= k < |a| :: Lower(a)[k] == b[k];
    return true;
  }

  /** The comparison is not symmetric: an upper-case letter in the second argument never matches. */
  lemma LowerEqualAsymmetric()
    ensures Lower("A") == "a" && Lower("a") != "A"
  {
    assert Lower("a")[0] == 'a';
  }

  // ---------------------------------------------------------------------
  // Line boundaries

  /** The character at `i`, reading index `|text|` as the `'\0'` that follows the characters of a `std::string`. */
  function CharAt(text: string, i: nat): char
    requires i <= |text|
  {
    if i < |text| then text[i] else '\0'
  }

  /** The character at `i` ends a non-blank line: it is a newline right after a character that is not one. */
  predicate EndsLine(text: string, i: nat)
    requires i <= |text|
  {
    i > 0 && CharAt(text, i) == '\n' && CharAt(text, i - 1) != '\n'
  }

  /** How many non-blank lines end before position `i`. */
  function LinesBefore(text: string, i: nat): nat
    requires i <= |text| + 1
  {
    if i == 0 then 0 else LinesBefore(text, i - 1) + if EndsLine(text, i - 1) then 1 else 0
  }

  lemma {:induction false} LinesMonotone(text: string, j: nat, k: nat)
    requires j <= k <= |text| + 1
    ensures LinesBefore(text, j) <= LinesBefore(text, k)
    decreases k - j
  {
    if j < k {
      LinesMonotone(text, j, k - 1);
    }
  }

  /** The count goes up one line at a time, so it passes through every value up to its end value. */
  lemma {:induction false} LinesReach(text: string, n: nat, k: nat)
    requires k <= |text| + 1 && n <= LinesBefore(text, k)
    ensures exists j | 0 <= j <= k :: LinesBefore(text, j) == n
    decreases k
  {
    if LinesBefore(text, k) != n {
      LinesReach(text, n, k - 1);
    }
  }

  /**
   * `FindStringBoundaries(text, number)`: when the text has at least `number`
   * non-blank lines ended by a newline, `[first, second)` is the line that
   * follows the first `number` of them — its first character is not a
   * newline, everything between it and the previous non-blank line is
   * blank, it holds no newline, and it ends at a newline (which ends the
   * next non-blank line) or at the end of the text; with fewer lines the
   * answer is `(0, 0)`.
   */
  method FindStringBoundaries(text: string, number: nat) returns (first: nat, second: nat)
    ensures number > LinesBefore(text, |text|) ==> first == 0 && second == 0
    ensures number <= LinesBefore(text, |text|) ==>
      && first <= second <= |text|
      && LinesBefore(text, first) == number
      && CharAt(text, first) != '\n'
      && (forall j | 0 <= j < first && LinesBefore(text, j) == number :: text[j] == '\n')
      && (forall j | first <= j < second :: text[j] != '\n')
      && (second == |text| || (text[second] == '\n' && LinesBefore(text, second + 1) == number + 1))
  {
    var notEmpty := false;
    var foundFirst := false;
    var strings := 0;
    first, second := 0, 0;
    for i := 0 to |text| + 1
      invariant strings == LinesBefore(text, i)
      invariant notEmpty <==> i > 0 && CharAt(text, i - 1) != '\n'
      invariant foundFirst ==> first < i && LinesBefore(text, first) == number && CharAt(text, first) != '\n'
      invariant !foundFirst ==> first == 0
      invariant forall j | 0 <= j < i && LinesBefore(text, j) == number && (!foundFirst || j < first) ::
        CharAt(text, j) == '\n'
      invariant forall j | 0 <= j < i && LinesBefore(text, j) == number :: j <= second
      invariant (second < i && LinesBefore(text, second) == number)
        || (second == 0 && forall j | 0 <= j < i :: LinesBefore(text, j) != number)
      invariant foundFirst ==> forall j | first <= j < second :: CharAt(text, j) != '\n'
    {
      if strings == number {
        if foundFirst && first < i - 1 {
          LinesMonotone(text, first, i - 1);
          LinesMonotone(text, i - 1, i);
          assert second == i - 1;
          assert CharAt(text, i - 2) != '\n';
        }
        if !foundFirst && CharAt(text, i) != '\n' {
          foundFirst := true;
          first := i;
        }
        second := i;
      }
      if CharAt(text, i) != '\n' {
        notEmpty := true;
      } else {
        strings := strings + if notEmpty then 1 else 0;
        notEmpty := false;
      }
    }
    var n := LinesBefore(text, |text|);
    forall j | 0 <= j <= |text|
      ensures LinesBefore(text, j) <= n
    {
      LinesMonotone(text, j, |text|);
    }
    if number <= n {
      LinesReach(text, number, |text|);
      if second < |text| {
        LinesMonotone(text, second, second + 1);
        assert EndsLine(text, second);
        assert LinesBefore(text, second - 1) == number;
      }
      assert foundFirst;
      forall j | first <= j < second
        ensures text[j] != '\n'
      {
        assert CharAt(text, j) != '\n';
      }
    }
  }

  // ---------------------------------------------------------------------
  // Words

  /** Which characters cut a string into pieces: newlines cut a text into lines, non-letters cut it into words. */
  datatype Separator = Newline | NonLetter

  predicate Separates(sep: Separator, c: char) {
    match sep
    case Newline => c == '\n'
    case NonLetter => !IsAlpha(c)
  }

  /** A string read up to some point: the pieces closed by a separator, and the piece under way. */
  datatype Pieces = Pieces(closed: seq<string>, current: string)

  /** `s` read from left to right: a separator closes the piece under way, any other character extends it. */
  function Cut(s: string, sep: Separator): Pieces
    decreases |s|
  {
    if s == [] then Pieces([], [])
    else
      var p := Cut(s[..|s| - 1], sep);
      var c := s[|s| - 1];
      if Separates(sep, c) then Pieces(p.closed + [p.current], [])
      else Pieces(p.closed, p.current + [c])
  }

  /**
   * The pieces of `s` between the characters `sep` accepts, in order: `k`
   * separators make `k + 1` pieces, some of them possibly empty.
   */
  function Split(s: string, sep: Separator): seq<string> {
    Cut(s, sep).closed + [Cut(s, sep).current]
  }

  /** One more character: a separator closes the piece under way, anything else extends it. */
  lemma CutSnoc(s: string, c: char, sep: Separator)
    ensures var p := Cut(s, sep);
      Cut(s + [c], sep) == if Separates(sep, c) then Pieces(p.closed + [p.current], []) else Pieces(p.closed, p.current + [c])
  {
    assert (s + [c])[..|s|] == s;
  }

  /** The same, for a prefix one character longer. */
  lemma CutPrefix(s: string, i: nat, sep: Separator)
    requires i < |s|
    ensures var p := Cut(s[..i], sep);
      Cut(s[..i + 1], sep) == if Separates(sep, s[i]) then Pieces(p.closed + [p.current], []) else Pieces(p.closed, p.current + [s[i]])
  {
    assert s[..i + 1] == s[..i] + [s[i]];
    CutSnoc(s[..i], s[i], sep);
  }

  /** A slice one character longer. */
  lemma SliceSnoc(s: string, j: nat, i: nat)
    requires j <= i < |s|
    ensures s[j..i + 1] == s[j..i] + [s[i]]
  {
  }

  /** No piece holds a separator. */
  lemma {:induction false} SplitPieces(s: string, sep: Separator)
    ensures forall k, j | 0 <= k < |Split(s, sep)| && 0 <= j < |Split(s, sep)[k]| :: !Separates(sep, Split(s, sep)[k][j])
    decreases |s|
  {
    if s != [] {
      var init, c := s[..|s| - 1], s[|s| - 1];
      SplitPieces(init, sep);
      var parts := Split(init, sep);
      if Separates(sep, c) {
        assert Split(s, sep) == parts + [[]];
      } else {
        assert Split(s, sep) == parts[..|parts| - 1] + [parts[|parts| - 1] + [c]];
      }
    }
  }

  /** The separators of `s`, in order. */
  function Separators(s: string, sep: Separator): string
    decreases |s|
  {
    if s == [] then []
    else Separators(s[..|s| - 1], sep) + if Separates(sep, s[|s| - 1]) then [s[|s| - 1]] else []
  }

  /** The pieces glued back together, each separator between the two pieces it separated. */
  function Join(parts: seq<string>, seps: string): string
    requires |parts| == |seps| + 1
    decreases |seps|
  {
    if seps == [] then parts[0]
    else Join(parts[..|parts| - 1], seps[..|seps| - 1]) + [seps[|seps| - 1]] + parts[|parts| - 1]
  }

  /** Splitting loses nothing: gluing the pieces back with the separators gives the string again. */
  lemma {:induction false} SplitJoin(s: string, sep: Separator)
    ensures |Split(s, sep)| == |Separators(s, sep)| + 1
    ensures Join(Split(s, sep), Separators(s, sep)) == s
    decreases |s|
  {
    if s != [] {
      var init, c := s[..|s| - 1], s[|s| - 1];
      SplitJoin(init, sep);
      var parts, seps := Split(init, sep), Separators(init, sep);
      if Separates(sep, c) {
        assert Split(s, sep) == parts + [[]];
        assert Separators(s, sep) == seps + [c];
        JoinSeparator(parts, seps, c);
      } else {
        assert Split(s, sep) == parts[..|parts| - 1] + [parts[|parts| - 1] + [c]];
        assert Separators(s, sep) == seps + [] == seps;
        JoinExtend(parts, seps, c);
      }
      assert init + [c] == s;
    }
  }

  /** Gluing on one more separator and an empty piece. */
  lemma JoinSeparator(parts: seq<string>, seps: string, c: char)
    requires |parts| == |seps| + 1
    ensures Join(parts + [[]], seps + [c]) == Join(parts, seps) + [c]
  {
    assert (parts + [[]])[..|parts|] == parts;
    assert (seps + [c])[..|seps|] == seps;
  }

  /** Gluing with the last piece one character longer. */
  lemma JoinExtend(parts: seq<string>, seps: string, c: char)
    requires |parts| == |seps| + 1
    ensures Join(parts[..|parts| - 1] + [parts[|parts| - 1] + [c]], seps) == Join(parts, seps) + [c]
  {
    var front, last := parts[..|parts| - 1], parts[|parts| - 1];
    var extended := front + [last + [c]];
    if seps != [] {
      assert extended[..|extended| - 1] == front;
      assert Join(extended, seps) == Join(front, seps[..|seps| - 1]) + [seps[|seps| - 1]] + (last + [c]);
    }
  }

  /** The non-empty strings of `parts`, in order. */
  function NonEmpty(parts: seq<string>): seq<string> {
    if parts == [] then []
    else NonEmpty(parts[..|parts| - 1]) + if parts[|parts| - 1] == [] then [] else [parts[|parts| - 1]]
  }

  lemma NonEmptySnoc(parts: seq<string>, p: string)
    ensures NonEmpty(parts + [p]) == NonEmpty(parts) + if p == [] then [] else [p]
  {
    assert (parts + [p])[..|parts|] == parts;
  }

  /** Every string `NonEmpty` keeps is one of the parts, and not empty. */
  lemma {:induction false} NonEmptyParts(parts: seq<string>)
    ensures forall k | 0 <= k < |NonEmpty(parts)| :: NonEmpty(parts)[k] != [] && NonEmpty(parts)[k] in parts
    decreases |parts|
  {
    if parts != [] {
      NonEmptyParts(parts[..|parts| - 1]);
    }
  }

  /** The maximal runs of letters of `s`, in order. */
  function Words(s: string): seq<string> {
    NonEmpty(Split(s, NonLetter))
  }

  /** The words of `s`: those closed by a non-letter, then the one under way if it is not empty. */
  lemma WordsCut(s: string)
    ensures var p := Cut(s, NonLetter);
      Words(s) == NonEmpty(p.closed) + if p.current == [] then [] else [p.current]
  {
    NonEmptySnoc(Cut(s, NonLetter).closed, Cut(s, NonLetter).current);
  }

  /** Every word is a non-empty run of letters. */
  lemma WordsShape(s: string)
    ensures forall k | 0 <= k < |Words(s)| :: Words(s)[k] != []
    ensures forall k, j | 0 <= k < |Words(s)| && 0 <= j < |Words(s)[k]| :: IsAlpha(Words(s)[k][j])
  {
    var parts := Split(s, NonLetter);
    NonEmptyParts(parts);
    SplitPieces(s, NonLetter);
    forall k, j | 0 <= k < |Words(s)| && 0 <= j < |Words(s)[k]|
      ensures IsAlpha(Words(s)[k][j])
    {
      var m :| 0 <= m < |parts| && parts[m] == Words(s)[k];
      assert !Separates(NonLetter, parts[m][j]);
    }
  }

  // ---------------------------------------------------------------------
  // NormalizeQuery

  /** The strings of `words`, lower-cased, as a set. */
  function LowerSet(words: seq<string>): set<string> {
    if words == [] then {} else LowerSet(words[..|words| - 1]) + {Lower(words[|words| - 1])}
  }

  /** The words of a query, lower-cased, as a set. */
  function QueryWords(s: string): set<string> {
    LowerSet(Words(s))
  }

  /** `LowerSet` holds the lower-cased strings of the sequence and nothing else. */
  lemma {:induction false} LowerSetMembers(words: seq<string>, w: string)
    ensures w in LowerSet(words) <==> exists k | 0 <= k < |words| :: Lower(words[k]) == w
    decreases |words|
  {
    if words != [] {
      var init := words[..|words| - 1];
      LowerSetMembers(init, w);
      if w in LowerSet(init) {
        var k :| 0 <= k < |init| && Lower(init[k]) == w;
        assert Lower(words[k]) == w;
      }
      if exists k | 0 <= k < |words| :: Lower(words[k]) == w {
        var k :| 0 <= k < |words| && Lower(words[k]) == w;
        if k < |init| {
          assert Lower(init[k]) == w;
        }
      }
    }
  }

  /** Every query word is a non-empty run of lower-case letters, and the lower-cased form of a word of the query. */
  lemma QueryWordsShape(s: string, w: string)
    requires w in QueryWords(s)
    ensures w != [] && forall j | 0 <= j < |w| :: IsLower(w[j])
    ensures exists k | 0 <= k < |Words(s)| :: Lower(Words(s)[k]) == w
  {
    LowerSetMembers(Words(s), w);
    WordsShape(s);
    var k :| 0 <= k < |Words(s)| && Lower(Words(s)[k]) == w;
  }

  lemma LowerSetSnoc(words: seq<string>, p: string)
    ensures LowerSet(words + if p == [] then [] else [p]) == LowerSet(words) + if p == [] then {} else {Lower(p)}
  {
    if p == [] {
      assert words + [] == words;
    } else {
      assert (words + [p])[..|words|] == words;
    }
  }

  /** Lower-casing keeps the length, so only the empty string lower-cases to the empty string. */
  lemma LowerEmpty(s: string)
    ensures Lower(s) == [] <==> s == []
  {
    assert |Lower(s)| == |s|;
  }

  /**
   * What `NormalizeQuery` holds before character `i`: the set of the words
   * completed so far, lower-cased, and the word under way, lower-cased.
   */
  ghost predicate QueryState(input: string, i: nat, words: set<string>, word: string)
    requires i <= |input|
  {
    var p := Cut(input[..i], NonLetter);
    words == LowerSet(NonEmpty(p.closed)) && word == Lower(p.current)
  }

  lemma QueryStart(input: string)
    ensures QueryState(input, 0, {}, "")
  {
    assert input[..0] == [];
  }

  /** A character that is not a letter completes the word under way. */
  lemma QuerySeparator(input: string, i: nat, words: set<string>, word: string)
    requires i < |input| && !IsAlpha(input[i]) && QueryState(input, i, words, word)
    ensures QueryState(input, i + 1, if word != [] then words + {word} else words, "")
  {
    var p := Cut(input[..i], NonLetter);
    CutPrefix(input, i, NonLetter);
    NonEmptySnoc(p.closed, p.current);
    LowerSetSnoc(NonEmpty(p.closed), p.current);
    LowerEmpty(p.current);
    LowerEmpty([]);
  }

  /** A letter extends the word under way. */
  lemma QueryLetter(input: string, i: nat, words: set<string>, word: string)
    requires i < |input| && IsAlpha(input[i]) && QueryState(input, i, words, word)
    ensures QueryState(input, i + 1, words, word + [ToLower(input[i])])
  {
    var p := Cut(input[..i], NonLetter);
    CutPrefix(input, i, NonLetter);
    assert Lower(p.current + [input[i]]) == Lower(p.current) + [ToLower(input[i])];
  }

  /** At the end the word under way is completed too. */
  lemma QueryEnd(input: string, words: set<string>, word: string)
    requires QueryState(input, |input|, words, word)
    ensures (if word != [] then words + {word} else words) == QueryWords(input)
  {
    assert input[..|input|] == input;
    var p := Cut(input, NonLetter);
    WordsCut(input);
    LowerSetSnoc(NonEmpty(p.closed), p.current);
  }

  /** `NormalizeQuery(input)`: the lower-cased words of the input, as a set. */
  method NormalizeQuery(input: string) returns (words: set<string>)
    ensures words == QueryWords(input)
  {
    words := {};
    var word := "";
    QueryStart(input);
    for i := 0 to |input|
      invariant QueryState(input, i, words, word)
    {
      if !IsAlpha(input[i]) {
        QuerySeparator(input, i, words, word);
        if word != [] {
          words := words + {word};
        }
        word := "";
      } else {
        QueryLetter(input, i, words, word);
        word := word + [ToLower(input[i])];
      }
    }
    QueryEnd(input, words, word);
    if word != [] {
      words := words + {word};
    }
  }

  // ---------------------------------------------------------------------
  // NormalizeText

  /** The words of each line, in order, leaving out the lines without a letter. */
  function Grouped(lines: seq<string>): seq<seq<string>> {
    if lines == [] then []
    else
      var words := Words(lines[|lines| - 1]);
      Grouped(lines[..|lines| - 1]) + if words == [] then [] else [words]
  }

  /** The words of a text, line by line. */
  function Normalized(text: string): seq<seq<string>> {
    Grouped(Split(text, Newline))
  }

  /** Every line kept has a word, and every word is a non-empty run of letters. */
  lemma NormalizedShape(text: string)
    ensures forall k | 0 <= k < |Normalized(text)| :: Normalized(text)[k] != []
    ensures forall k, m | 0 <= k < |Normalized(text)| && 0 <= m < |Normalized(text)[k]| ::
      Normalized(text)[k][m] != [] && forall j | 0 <= j < |Normalized(text)[k][m]| :: IsAlpha(Normalized(text)[k][m][j])
  {
    GroupedShape(Split(text, Newline));
  }

  lemma {:induction false} GroupedShape(lines: seq<string>)
    ensures forall k | 0 <= k < |Grouped(lines)| :: Grouped(lines)[k] != []
    ensures forall k, m | 0 <= k < |Grouped(lines)| && 0 <= m < |Grouped(lines)[k]| ::
      Grouped(lines)[k][m] != [] && forall j | 0 <= j < |Grouped(lines)[k][m]| :: IsAlpha(Grouped(lines)[k][m][j])
    decreases |lines|
  {
    if lines != [] {
      GroupedShape(lines[..|lines| - 1]);
      WordsShape(lines[|lines| - 1]);
    }
  }

  /** One more line adds its words, if it has any, as one more group. */
  lemma GroupedSnoc(lines: seq<string>, line: string)
    ensures Grouped(lines + [line]) == Grouped(lines) + if Words(line) == [] then [] else [Words(line)]
  {
    assert (lines + [line])[..|lines|] == lines;
  }

  /** A line without characters has no word. */
  lemma NoWordsInEmpty()
    ensures Words([]) == []
  {
    assert NonEmpty([[]]) == NonEmpty([]) + [];
  }

  /** A text of newlines only: every line is empty, so there is no word yet and no line to keep. */
  lemma {:induction false} OnlyNewlines(text: string)
    requires forall j | 0 <= j < |text| :: text[j] == '\n'
    ensures Cut(text, Newline).current == [] && Grouped(Cut(text, Newline).closed) == []
    decreases |text|
  {
    if text != [] {
      var init := text[..|text| - 1];
      OnlyNewlines(init);
      var p := Cut(init, Newline);
      GroupedSnoc(p.closed, p.current);
      NoWordsInEmpty();
    }
  }

  /** The first `index` characters of `text` are newlines. */
  predicate LeadingNewlines(text: string, index: nat) {
    index <= |text| && forall j | 0 <= j < index :: text[j] == '\n'
  }

  /**
   * What `NormalizeText` holds before character `i`: the groups of the
   * completed lines, the completed words of the current line, and the word
   * under way, which starts at `index`.
   */
  ghost predicate TextState(text: string, i: nat, index: nat, groups: seq<seq<string>>, line: seq<string>) {
    && index <= i <= |text|
    && var lines := Cut(text[..i], Newline);
       var words := Cut(lines.current, NonLetter);
       groups == Grouped(lines.closed) && line == NonEmpty(words.closed) && text[index..i] == words.current
  }

  /** Leading newlines leave nothing behind. */
  lemma TextStart(text: string, index: nat)
    requires LeadingNewlines(text, index)
    ensures TextState(text, index, index, [], [])
  {
    assert forall j | 0 <= j < index :: text[..index][j] == '\n';
    OnlyNewlines(text[..index]);
  }

  /** Completing the word under way, when it is not empty, gives the words of the whole line. */
  lemma CompleteWord(line: string, words: seq<string>, word: string)
    requires words == NonEmpty(Cut(line, NonLetter).closed) && word == Cut(line, NonLetter).current
    ensures (if word != [] then words + [word] else words) == Words(line)
  {
    WordsCut(line);
    if word == [] {
      assert words + [] == words;
    }
  }

  /** A newline completes the word under way and the line, which is kept when it has a word. */
  lemma TextNewline(text: string, i: nat, index: nat, groups: seq<seq<string>>, line: seq<string>)
    requires i < |text| && text[i] == '\n' && TextState(text, i, index, groups, line)
    ensures var full := if index != i then line + [text[index..i]] else line;
      TextState(text, i + 1, i + 1, if full != [] then groups + [full] else groups, [])
  {
    var lines := Cut(text[..i], Newline);
    CutPrefix(text, i, Newline);
    CompleteWord(lines.current, line, text[index..i]);
    GroupedSnoc(lines.closed, lines.current);
    assert text[i + 1..i + 1] == [];
  }

  /** A letter extends the word under way. */
  lemma TextLetter(text: string, i: nat, index: nat, groups: seq<seq<string>>, line: seq<string>)
    requires i < |text| && IsAlpha(text[i]) && TextState(text, i, index, groups, line)
    ensures TextState(text, i + 1, index, groups, line)
  {
    var lines := Cut(text[..i], Newline);
    CutPrefix(text, i, Newline);
    CutSnoc(lines.current, text[i], NonLetter);
    SliceSnoc(text, index, i);
  }

  /** Any other character completes the word under way. */
  lemma TextOther(text: string, i: nat, index: nat, groups: seq<seq<string>>, line: seq<string>)
    requires i < |text| && text[i] != '\n' && !IsAlpha(text[i]) && TextState(text, i, index, groups, line)
    ensures TextState(text, i + 1, i + 1, groups, if index != i then line + [text[index..i]] else line)
  {
    var lines := Cut(text[..i], Newline);
    CutPrefix(text, i, Newline);
    var words := Cut(lines.current, NonLetter);
    CutSnoc(lines.current, text[i], NonLetter);
    NonEmptySnoc(words.closed, words.current);
    assert text[i + 1..i + 1] == [];
  }

  /** At the end the word under way and the last line are completed too. */
  lemma TextEnd(text: string, index: nat, groups: seq<seq<string>>, line: seq<string>)
    requires TextState(text, |text|, index, groups, line)
    ensures var full := if index != |text| then line + [text[index..|text|]] else line;
      (if full != [] then groups + [full] else groups) == Normalized(text)
  {
    assert text[..|text|] == text;
    var lines := Cut(text, Newline);
    CompleteWord(lines.current, line, text[index..|text|]);
    GroupedSnoc(lines.closed, lines.current);
  }

  /** One pass of the `NormalizeText` loop, at character `i`. */
  method TextStep(text: string, i: nat, index: nat, groups: seq<seq<string>>, line: seq<string>)
    returns (index': nat, groups': seq<seq<string>>, line': seq<string>)
    requires i < |text| && TextState(text, i, index, groups, line)
    ensures TextState(text, i + 1, index', groups', line')
  {
    index', groups', line' := index, groups, line;
    if text[i] == '\n' {
      TextNewline(text, i, index, groups, line);
      if index != i {
        line' := line' + [text[index..i]];
      }
      index' := i + 1;
      if line' != [] {
        groups' := groups' + [line'];
      }
      line' := [];
    } else if !IsAlpha(text[i]) {
      TextOther(text, i, index, groups, line);
      if index != i {
        line' := line' + [text[index..i]];
      }
      index' := i + 1;
    } else {
      TextLetter(text, i, index, groups, line);
    }
  }

  /**
   * The first loop of `NormalizeText`: the position of the first character
   * that is not a newline, or 0 when there is none.
   */
  method SkipNewlines(text: string) returns (index: nat)
    ensures LeadingNewlines(text, index)
    ensures (exists j | 0 <= j < |text| :: text[j] != '\n') ==> index < |text| && text[index] != '\n'
    ensures (forall j | 0 <= j < |text| :: text[j] == '\n') ==> index == 0
  {
    index := 0;
    var k := 0;
    while k < |text|
      invariant k <= |text| && index == 0
      invariant forall j | 0 <= j < k :: text[j] == '\n'
    {
      if text[k] != '\n' {
        index := k;
        return;
      }
      k := k + 1;
    }
  }

  /**
   * `NormalizeText(text)`: the words of each line, as views of the text in
   * their original case, leaving out lines without a letter.  The flag
   * `include_punctuation` is unused and not modelled.
   */
  method NormalizeText(text: string) returns (groups: seq<seq<string>>)
    ensures groups == Normalized(text)
  {
    var index := SkipNewlines(text);
    TextStart(text, index);
    groups := [];
    var line: seq<string> := [];
    for i := index to |text|
      invariant TextState(text, i, index, groups, line)
    {
      index, groups, line := TextStep(text, i, index, groups, line);
    }
    TextEnd(text, index, groups, line);
    if index != |text| {
      line := line + [text[index..|text|]];
    }
    if line != [] {
      groups := groups + [line];
    }
  }

  /** The groups, one after the other. */
  function Flatten(groups: seq<seq<string>>): seq<string> {
    if groups == [] then [] else Flatten(groups[..|groups| - 1]) + groups[|groups| - 1]
  }

  /** Flattening the groups of some lines and one more gives the words of the last line appended. */
  lemma FlattenGrouped(lines: seq<string>, line: string)
    ensures Flatten(Grouped(lines + [line])) == Flatten(Grouped(lines)) + Words(line)
  {
    GroupedSnoc(lines, line);
    var front := Grouped(lines);
    var words := Words(line);
    if words == [] {
      assert front + [] == front;
      assert Flatten(front) + [] == Flatten(front);
    } else {
      assert (front + [words])[..|front|] == front;
    }
  }

  /**
   * A prefix read two ways, as lines `lines` and as pieces between
   * non-letters `all`: the words of the completed lines followed by the
   * completed words of the current line are the completed words of the
   * prefix, and the word under way is the same.
   */
  predicate ByLine(lines: Pieces, all: Pieces) {
    var words := Cut(lines.current, NonLetter);
    && Flatten(Grouped(lines.closed)) + NonEmpty(words.closed) == NonEmpty(all.closed)
    && words.current == all.current
  }

  /** A newline completes the line and the word under way. */
  lemma StepNewline(lines: Pieces, all: Pieces)
    requires ByLine(lines, all)
    ensures ByLine(Pieces(lines.closed + [lines.current], []), Pieces(all.closed + [all.current], []))
  {
    FlattenGrouped(lines.closed, lines.current);
    WordsCut(lines.current);
    NonEmptySnoc(all.closed, all.current);
  }

  /** A letter extends the current line and the word under way. */
  lemma StepLetter(lines: Pieces, all: Pieces, c: char)
    requires ByLine(lines, all) && IsAlpha(c)
    ensures ByLine(Pieces(lines.closed, lines.current + [c]), Pieces(all.closed, all.current + [c]))
  {
    CutSnoc(lines.current, c, NonLetter);
  }

  /** Any other character extends the current line and completes the word under way. */
  lemma StepOther(lines: Pieces, all: Pieces, c: char)
    requires ByLine(lines, all) && !IsAlpha(c)
    ensures ByLine(Pieces(lines.closed, lines.current + [c]), Pieces(all.closed + [all.current], []))
  {
    var words := Cut(lines.current, NonLetter);
    CutSnoc(lines.current, c, NonLetter);
    NonEmptySnoc(words.closed, words.current);
    NonEmptySnoc(all.closed, all.current);
  }

  /** Every prefix of a text has the same words seen line by line or as a whole. */
  lemma {:induction false} WordsByLine(p: string)
    ensures ByLine(Cut(p, Newline), Cut(p, NonLetter))
    decreases |p|
  {
    if p != [] {
      var init, c := p[..|p| - 1], p[|p| - 1];
      WordsByLine(init);
      var lines, all := Cut(init, Newline), Cut(init, NonLetter);
      if c == '\n' {
        StepNewline(lines, all);
      } else if IsAlpha(c) {
        StepLetter(lines, all, c);
      } else {
        StepOther(lines, all, c);
      }
    }
  }

  /**
   * Read line after line, the words `NormalizeText` keeps are exactly the
   * words of the whole text, in their original order and case: lines
   * group the words without adding, dropping or reordering any.
   */
  lemma NormalizedWords(text: string)
    ensures Flatten(Normalized(text)) == Words(text)
  {
    var lines, all := Cut(text, Newline), Cut(text, NonLetter);
    WordsByLine(text);
    FlattenGrouped(lines.closed, lines.current);
    WordsCut(lines.current);
    WordsCut(text);
  }
}
