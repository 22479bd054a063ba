/**
 * A printer for syntax trees in list notation, and the proof that the reader
 * reads back every tree it prints: `(a b c)` for proper lists, `(a . b)` for
 * a pair whose second part is an atom, `()` for null.
 */
module Printer {
  import opened Wrappers
  import opened CLib
  import opened Tokens
  import opened Objects
  import opened Parser

  /** A number as the tokenizer reads it: an optional minus sign, then decimal digits. */
  function NumberText(v: int): (r: string)
    ensures |r| >= 1
  {
    if v < 0 then "-" + Decimal(-v) else Decimal(v)
  }

  /** The structural size of a tree, which bounds the printer's and the proof's recursion. */
  function Size(r: Ref): nat
  {
    match r
    case None => 0
    case Some(Number(_)) => 1
    case Some(Symbol(_)) => 1
    case Some(Cell(a, b)) => 1 + Size(a) + Size(b)
  }

  /** Prints a tree. */
  function Show(r: Ref): string
    decreases Size(r), 0
  {
    match r
    case None => "()"
    case Some(Number(v)) => NumberText(v)
    case Some(Symbol(n)) => n
    case Some(Cell(a, b)) => "(" + Show(a) + ShowTail(b)
  }

  /** Prints what follows the first element of a list whose remainder is `r`. */
  function ShowTail(r: Ref): (text: string)
    ensures |text| >= 1 && text[|text| - 1] == ')'
    ensures text[0] == ' ' || text[0] == ')'
    decreases Size(r), 1
  {
    match r
    case None => ")"
    case Some(Cell(a, b)) => " " + Show(a) + ShowTail(b)
    case Some(atom) => " . " + Show(Some(atom)) + ")"
  }

  /** The length of a printed tree. */
  function Width(r: Ref): nat
    decreases Size(r), 0
  {
    match r
    case None => 2
    case Some(Number(v)) => |NumberText(v)|
    case Some(Symbol(n)) => |n|
    case Some(Cell(a, b)) => 1 + Width(a) + TailWidth(b)
  }

  /** The length of a printed list tail. */
  function TailWidth(r: Ref): nat
    decreases Size(r), 1
  {
    match r
    case None => 1
    case Some(Cell(a, b)) => 1 + Width(a) + TailWidth(b)
    case Some(atom) => 4 + Width(r)
  }

  /** `Width` is the length of what `Show` prints. */
  lemma {:induction false} ShowWidth(r: Ref)
    ensures |Show(r)| == Width(r)
    decreases Size(r), 0
  {
    match r
    case None =>
    case Some(Number(_)) =>
    case Some(Symbol(_)) =>
    case Some(Cell(a, b)) =>
      ShowWidth(a);
      TailShowWidth(b);
  }

  /** `TailWidth` is the length of what `ShowTail` prints. */
  lemma {:induction false} TailShowWidth(r: Ref)
    ensures |ShowTail(r)| == TailWidth(r)
    decreases Size(r), 1
  {
    match r
    case None =>
    case Some(Cell(a, b)) =>
      ShowWidth(a);
      TailShowWidth(b);
    case Some(_) =>
      ShowWidth(r);
  }

  /**
   * The trees the tokenizer can read back from their printed form: numbers
   * within `int`, and symbols that start with a symbol-starting character and
   * continue with symbol characters.
   */
  predicate WellFormed(r: Ref)
    decreases Size(r)
  {
    match r
    case None => true
    case Some(Number(v)) => INT_MIN <= v <= INT_MAX
    case Some(Symbol(n)) =>
      |n| >= 1 && IsSymbolStart(n[0]) && forall k | 1 <= k < |n| :: IsSymbolChar(n[k])
    case Some(Cell(a, b)) => WellFormed(a) && WellFormed(b)
  }

  /** `t` occurs in `s` at position `i`. */
  predicate At(s: string, i: nat, t: string) {
    i + |t| <= |s| && forall k | 0 <= k < |t| :: s[i + k] == t[k]
  }

  /** Position `i` ends an atom: end of input, a blank or a closing bracket. */
  predicate Delimited(s: string, i: nat) {
    i == |s| || (i < |s| && (s[i] == ' ' || s[i] == ')'))
  }

  /** A parse result from a tree and the scan that follows it. */
  function Wrap(r: Ref, scan: Result<Step, Error>): Result<Parsed, Error> {
    match scan
    case Success(st) => Success(Parsed(r, st))
    case Failure(e) => Failure(e)
  }

  lemma AtSplit(s: string, i: nat, a: string, b: string)
    requires At(s, i, a + b)
    ensures At(s, i, a) && At(s, i + |a|, b)
  {
    forall k | 0 <= k < |a|
      ensures s[i + k] == a[k]
    {
      assert (a + b)[k] == a[k];
    }
    forall k | 0 <= k < |b|
      ensures s[i + |a| + k] == b[k]
    {
      assert (a + b)[|a| + k] == b[k];
      assert s[i + (|a| + k)] == (a + b)[|a| + k];
    }
  }

  lemma AtSlice(s: string, i: nat, t: string)
    requires At(s, i, t)
    ensures s[i..i + |t|] == t
  {
    forall k | 0 <= k < |t|
      ensures s[i..i + |t|][k] == t[k]
    {
      assert s[i + k] == t[k];
    }
  }

  /** White space before a token does not change the token nor where it ends. */
  lemma ScanSkipsSpace(s: string, i: nat)
    requires i < |s| && IsSpace(s[i])
    ensures Scan(s, i) == Scan(s, i + 1)
  {
    assert SpaceRunEnd(s, i) == SpaceRunEnd(s, i + 1);
  }

  /** A single punctuation character scans as its own token. */
  lemma ScanPunctuation(s: string, i: nat)
    requires i < |s| && (s[i] == '(' || s[i] == ')' || s[i] == '.')
    ensures Scan(s, i) == Success(Step(Some(
      if s[i] == '(' then BracketToken(Open) else if s[i] == ')' then BracketToken(Close) else DotToken), i + 1))
  {
    assert SpaceRunEnd(s, i) == i;
  }

  /** A sign or a digit starts a number token, which ends where the digits do. */
  lemma ScanSignOrDigit(s: string, i: nat, v: int)
    requires i < |s| && (IsDigit(s[i]) || s[i] == '-')
    requires Stoi(s[i..DigitRunEnd(s, i + 1)]) == Success(v)
    ensures Scan(s, i) == Success(Step(Some(ConstantToken(v)), DigitRunEnd(s, i + 1)))
  {
    ScanNumberStart(s, i);
  }

  /** A sign or a digit is scanned by `NumberAt`. */
  lemma ScanNumberStart(s: string, i: nat)
    requires i < |s| && (IsDigit(s[i]) || s[i] == '-')
    ensures Scan(s, i) == NumberAt(s, i)
  {
    assert SpaceRunEnd(s, i) == i;
  }

  /** A symbol-starting character starts a symbol token, which ends where the symbol characters do. */
  lemma ScanSymbolStart(s: string, i: nat)
    requires i < |s| && IsSymbolStart(s[i])
    ensures Scan(s, i) == Success(Step(Some(SymbolToken(s[i..SymbolRunEnd(s, i + 1)])), SymbolRunEnd(s, i + 1)))
  {
    assert SpaceRunEnd(s, i) == i;
  }

  /** `std::stoi` reads a printed number back. */
  lemma StoiNumberText(v: int)
    requires INT_MIN <= v <= INT_MAX
    ensures Stoi(NumberText(v)) == Success(v)
  {
    var digits := if v < 0 then Decimal(-v) else Decimal(v);
    var sign := if v < 0 then "-" else "";
    assert NumberText(v) == sign + digits;
    DecimalValue(if v < 0 then -v else v);
    StoiSignedDigits(sign, digits);
  }

  /** The digits of a printed number end where the number does. */
  lemma NumberDigitsEnd(s: string, i: nat, v: int)
    requires At(s, i, NumberText(v)) && Delimited(s, i + |NumberText(v)|)
    ensures IsDigit(s[i]) || s[i] == '-'
    ensures DigitRunEnd(s, i + 1) == i + |NumberText(v)|
  {
    var text := NumberText(v);
    var e := i + |text|;
    assert s[i] == text[0];
    forall k | i + 1 <= k < e
      ensures IsDigit(s[k])
    {
      assert s[i + (k - i)] == text[k - i];
    }
  }

  /** A printed number followed by a delimiter scans as one constant token. */
  lemma ScanNumber(s: string, i: nat, v: int)
    requires INT_MIN <= v <= INT_MAX
    requires At(s, i, NumberText(v)) && Delimited(s, i + |NumberText(v)|)
    ensures Scan(s, i) == Success(Step(Some(ConstantToken(v)), i + |NumberText(v)|))
  {
    NumberDigitsEnd(s, i, v);
    AtSlice(s, i, NumberText(v));
    StoiNumberText(v);
    ScanSignOrDigit(s, i, v);
  }

  /** A well-formed symbol followed by a delimiter scans as one symbol token. */
  lemma ScanSymbol(s: string, i: nat, n: string)
    requires |n| >= 1 && IsSymbolStart(n[0]) && forall k | 1 <= k < |n| :: IsSymbolChar(n[k])
    requires At(s, i, n) && Delimited(s, i + |n|)
    ensures Scan(s, i) == Success(Step(Some(SymbolToken(n)), i + |n|))
  {
    var e := i + |n|;
    assert s[i] == n[0];
    forall k | i + 1 <= k < e
      ensures IsSymbolChar(s[k])
    {
      assert s[i + (k - i)] == n[k - i];
    }
    assert SymbolRunEnd(s, i + 1) == e;
    AtSlice(s, i, n);
    ScanSymbolStart(s, i);
  }

  /** An opening bracket scans as its token. */
  lemma LexOpen(s: string, i: nat)
    requires i < |s| && s[i] == '('
    ensures Lex(s)[i] == Success(Step(Some(BracketToken(Open)), i + 1))
  {
    LexAt(s, i);
    ScanPunctuation(s, i);
  }

  /** A closing bracket scans as its token. */
  lemma LexClose(s: string, i: nat)
    requires i < |s| && s[i] == ')'
    ensures Lex(s)[i] == Success(Step(Some(BracketToken(Close)), i + 1))
  {
    LexAt(s, i);
    ScanPunctuation(s, i);
  }

  /** A blank before a token changes nothing. */
  lemma LexSkipsSpace(s: string, i: nat)
    requires i < |s| && s[i] == ' '
    ensures Lex(s)[i] == Lex(s)[i + 1]
  {
    LexAt(s, i);
    LexAt(s, i + 1);
    ScanSkipsSpace(s, i);
  }

  /** A blank and a dot scan as a dot. */
  lemma LexSpacedDot(s: string, i: nat)
    requires i + 1 < |s| && s[i] == ' ' && s[i + 1] == '.'
    ensures Lex(s)[i] == Success(Step(Some(DotToken), i + 2))
  {
    LexAt(s, i);
    ScanSkipsSpace(s, i);
    ScanPunctuation(s, i + 1);
  }

  /** A printed number followed by a delimiter is one constant token. */
  lemma LexNumber(s: string, i: nat, v: int)
    requires INT_MIN <= v <= INT_MAX
    requires At(s, i, NumberText(v)) && Delimited(s, i + |NumberText(v)|)
    ensures Lex(s)[i] == Success(Step(Some(ConstantToken(v)), i + |NumberText(v)|))
  {
    LexAt(s, i);
    ScanNumber(s, i, v);
  }

  /** A well-formed symbol followed by a delimiter is one symbol token. */
  lemma LexSymbol(s: string, i: nat, n: string)
    requires |n| >= 1 && IsSymbolStart(n[0]) && forall k | 1 <= k < |n| :: IsSymbolChar(n[k])
    requires At(s, i, n) && Delimited(s, i + |n|)
    ensures Lex(s)[i] == Success(Step(Some(SymbolToken(n)), i + |n|))
  {
    LexAt(s, i);
    ScanSymbol(s, i, n);
  }

  /**
   * The scan results a printed tree leaves in `table` from position `i`: its
   * first token there, and the tokens of its parts where they were printed.
   */
  predicate LexesShow(table: LexTable, i: nat, r: Ref)
    decreases Size(r), 0
  {
    && i + Width(r) < |table|
    && match r
       case None =>
         && table[i] == Success(Step(Some(BracketToken(Open)), i + 1))
         && table[i + 1] == Success(Step(Some(BracketToken(Close)), i + 2))
       case Some(Number(v)) => table[i] == Success(Step(Some(ConstantToken(v)), i + Width(r)))
       case Some(Symbol(n)) => table[i] == Success(Step(Some(SymbolToken(n)), i + Width(r)))
       case Some(Cell(a, b)) =>
         && table[i] == Success(Step(Some(BracketToken(Open)), i + 1))
         && LexesShow(table, i + 1, a)
         && LexesTail(table, i + 1 + Width(a), b)
  }

  /** The scan results a printed list tail leaves in `table` from position `k`. */
  predicate LexesTail(table: LexTable, k: nat, r: Ref)
    decreases Size(r), 1
  {
    && k + TailWidth(r) < |table|
    && match r
       case None => table[k] == Success(Step(Some(BracketToken(Close)), k + 1))
       case Some(Cell(x, y)) =>
         && table[k] == table[k + 1]
         && LexesShow(table, k + 1, x)
         && LexesTail(table, k + 1 + Width(x), y)
       case Some(_) =>
         && table[k] == Success(Step(Some(DotToken), k + 2))
         && table[k + 2] == table[k + 3]
         && LexesShow(table, k + 3, r)
         && table[k + 3 + Width(r)] == Success(Step(Some(BracketToken(Close)), k + 4 + Width(r)))
  }

  /** A printed tree followed by a delimiter is scanned as the tokens of the tree. */
  lemma {:induction false} LexShow(s: string, i: nat, r: Ref)
    requires WellFormed(r) && At(s, i, Show(r)) && Delimited(s, i + Width(r))
    ensures LexesShow(Lex(s), i, r)
    decreases Size(r), 1
  {
    match r
    case None =>
      assert s[i] == Show(r)[0] && s[i + 1] == Show(r)[1];
      LexOpen(s, i);
      LexClose(s, i + 1);
    case Some(Number(v)) =>
      LexNumber(s, i, v);
    case Some(Symbol(n)) =>
      LexSymbol(s, i, n);
    case Some(Cell(_, _)) =>
      LexCell(s, i, r);
  }

  /** A printed pair is scanned as `(`, the tokens of its first part and those of the tail. */
  lemma {:induction false} LexCell(s: string, i: nat, r: Ref)
    requires r.Some? && r.value.Cell? && WellFormed(r) && At(s, i, Show(r))
    ensures LexesShow(Lex(s), i, r)
    decreases Size(r), 0
  {
    var a, b := r.value.first, r.value.second;
    CellParts(s, i, a, b);
    LexOpen(s, i);
    LexShow(s, i + 1, a);
    LexTail(s, i + 1 + Width(a), b);
    LexesCell(Lex(s), i, a, b);
  }

  /** Where the parts of a printed pair are printed. */
  lemma CellParts(s: string, i: nat, a: Ref, b: Ref)
    requires At(s, i, Show(Some(Cell(a, b))))
    ensures i + Width(Some(Cell(a, b))) <= |s| && s[i] == '('
    ensures At(s, i + 1, Show(a)) && At(s, i + 1 + Width(a), ShowTail(b))
    ensures Delimited(s, i + 1 + Width(a))
  {
    ShowWidth(Some(Cell(a, b)));
    ShowWidth(a);
    assert s[i] == Show(Some(Cell(a, b)))[0];
    assert Show(Some(Cell(a, b))) == "(" + (Show(a) + ShowTail(b));
    AtSplit(s, i, "(", Show(a) + ShowTail(b));
    AtSplit(s, i + 1, Show(a), ShowTail(b));
    assert s[i + 1 + |Show(a)|] == ShowTail(b)[0];
  }

  lemma LexesCell(table: LexTable, i: nat, a: Ref, b: Ref)
    requires i + Width(Some(Cell(a, b))) < |table|
    requires table[i] == Success(Step(Some(BracketToken(Open)), i + 1))
    requires LexesShow(table, i + 1, a) && LexesTail(table, i + 1 + Width(a), b)
    ensures LexesShow(table, i, Some(Cell(a, b)))
  {
  }

  /** A printed list tail is scanned as the tokens of the tail. */
  lemma {:induction false} LexTail(s: string, k: nat, r: Ref)
    requires WellFormed(r) && At(s, k, ShowTail(r))
    ensures LexesTail(Lex(s), k, r)
    decreases Size(r), 3
  {
    if r.None? {
      assert s[k] == ShowTail(r)[0];
      LexClose(s, k);
    } else if r.value.Cell? {
      LexTailCons(s, k, r);
    } else {
      LexTailDot(s, k, r);
    }
  }

  /** A printed tail ` x ...` is scanned as a blank, the tokens of `x` and those of the rest. */
  lemma {:induction false} LexTailCons(s: string, k: nat, r: Ref)
    requires r.Some? && r.value.Cell? && WellFormed(r) && At(s, k, ShowTail(r))
    ensures LexesTail(Lex(s), k, r)
    decreases Size(r), 2
  {
    var x, y := r.value.first, r.value.second;
    ConsParts(s, k, x, y);
    LexSkipsSpace(s, k);
    LexShow(s, k + 1, x);
    LexTail(s, k + 1 + Width(x), y);
    LexesCons(Lex(s), k, x, y);
  }

  /** Where the parts of a printed list tail ` x ...` are printed. */
  lemma ConsParts(s: string, k: nat, x: Ref, y: Ref)
    requires At(s, k, ShowTail(Some(Cell(x, y))))
    ensures k + TailWidth(Some(Cell(x, y))) <= |s| && s[k] == ' '
    ensures At(s, k + 1, Show(x)) && At(s, k + 1 + Width(x), ShowTail(y))
    ensures Delimited(s, k + 1 + Width(x))
  {
    TailShowWidth(Some(Cell(x, y)));
    ShowWidth(x);
    assert ShowTail(Some(Cell(x, y))) == " " + (Show(x) + ShowTail(y));
    AtSplit(s, k, " ", Show(x) + ShowTail(y));
    AtSplit(s, k + 1, Show(x), ShowTail(y));
    assert s[k + 1 + |Show(x)|] == ShowTail(y)[0];
  }

  lemma LexesCons(table: LexTable, k: nat, x: Ref, y: Ref)
    requires k + TailWidth(Some(Cell(x, y))) < |table| && table[k] == table[k + 1]
    requires LexesShow(table, k + 1, x) && LexesTail(table, k + 1 + Width(x), y)
    ensures LexesTail(table, k, Some(Cell(x, y)))
  {
  }

  /** A printed tail ` . b)` is scanned as a dot, the tokens of `b` and `)`. */
  lemma {:induction false} LexTailDot(s: string, k: nat, r: Ref)
    requires r.Some? && !r.value.Cell? && WellFormed(r) && At(s, k, ShowTail(r))
    ensures LexesTail(Lex(s), k, r)
    decreases Size(r), 2
  {
    DotParts(s, k, r);
    LexSpacedDot(s, k);
    LexSkipsSpace(s, k + 2);
    LexShow(s, k + 3, r);
    LexClose(s, k + 3 + Width(r));
    LexesDot(Lex(s), k, r);
  }

  /** Where the parts of a printed dotted tail ` . b)` are printed. */
  lemma DotParts(s: string, k: nat, b: Ref)
    requires b.Some? && !b.value.Cell? && At(s, k, ShowTail(b))
    ensures k + TailWidth(b) <= |s| && s[k] == ' ' && s[k + 1] == '.' && s[k + 2] == ' '
    ensures At(s, k + 3, Show(b)) && Delimited(s, k + 3 + Width(b)) && s[k + 3 + Width(b)] == ')'
  {
    TailShowWidth(b);
    ShowWidth(b);
    var m := k + 3 + |Show(b)|;
    assert ShowTail(b) == " . " + (Show(b) + ")");
    AtSplit(s, k, " . ", Show(b) + ")");
    AtSplit(s, k + 3, Show(b), ")");
    assert s[k] == ShowTail(b)[0] && s[k + 1] == ShowTail(b)[1] && s[k + 2] == ShowTail(b)[2];
    assert s[m] == ShowTail(b)[m - k];
  }

  lemma LexesDot(table: LexTable, k: nat, b: Ref)
    requires b.Some? && !b.value.Cell? && k + TailWidth(b) < |table|
    requires table[k] == Success(Step(Some(DotToken), k + 2)) && table[k + 2] == table[k + 3]
    requires LexesShow(table, k + 3, b)
    requires table[k + 3 + Width(b)] == Success(Step(Some(BracketToken(Close)), k + 4 + Width(b)))
    ensures LexesTail(table, k, b)
  {
  }

  /** The first token of a printed tree neither closes a list nor is a dot. */
  lemma FirstLexed(table: LexTable, i: nat, r: Ref)
    requires LexesShow(table, i, r)
    ensures table[i].Success? && table[i].value.token.Some?
    ensures table[i].value.token != Some(BracketToken(Close)) && table[i].value.token != Some(DotToken)
  {
  }

  /** Reading the tokens of a printed tree gives the tree back and leaves the state just after them. */
  lemma {:induction false} ReadLexed(table: LexTable, i: nat, r: Ref)
    requires Consistent(table) && LexesShow(table, i, r)
    ensures table[i].Success? && table[i].value.next < |table|
    ensures ReadAt(table, table[i].value) == Wrap(r, table[i + Width(r)])
    decreases Size(r), 3
  {
    FirstLexed(table, i, r);
    if r.Some? && r.value.Cell? {
      ReadLexedCell(table, i, r);
    }
  }

  /** Reading the tokens of a printed pair: `(`, then the inside of the list. */
  lemma {:induction false} ReadLexedCell(table: LexTable, i: nat, r: Ref)
    requires r.Some? && r.value.Cell?
    requires Consistent(table) && LexesShow(table, i, r)
    ensures table[i].Success? && table[i].value.next < |table|
    ensures ReadAt(table, table[i].value) == Wrap(r, table[i + Width(r)])
    decreases Size(r), 2
  {
    var a, b := r.value.first, r.value.second;
    LexesCellParts(table, i, a, b);
    ReadListLexed(table, i + 1, a, b);
    OpenThenList(table, table[i].value, table[i + Width(r)], r);
  }

  /** The scan results of a printed pair, part by part. */
  lemma LexesCellParts(table: LexTable, i: nat, a: Ref, b: Ref)
    requires LexesShow(table, i, Some(Cell(a, b)))
    ensures table[i] == Success(Step(Some(BracketToken(Open)), i + 1))
    ensures LexesShow(table, i, Some(Cell(a, b))) <==> LexesShow(table, i + 1, a) && LexesTail(table, i + 1 + Width(a), b)
    ensures i + Width(Some(Cell(a, b))) == i + 1 + Width(a) + TailWidth(b)
  {
    var r := Some(Cell(a, b));
    assert r.value.first == a && r.value.second == b;
  }

  /** `Read` on `(` continues with `ReadList`. */
  lemma OpenThenList(table: LexTable, st: Step, after: Result<Step, Error>, r: Ref)
    requires Consistent(table) && st.next < |table| && st.token == Some(BracketToken(Open))
    requires table[st.next].Success? && table[st.next].value.next < |table|
    requires ReadListAt(table, table[st.next].value) == Wrap(r, after)
    ensures ReadAt(table, st) == Wrap(r, after)
  {
  }

  /**
   * Reading the tokens of the inside of a printed list, from its first
   * element to its closing bracket, gives the list back.
   */
  lemma {:induction false} ReadListLexed(table: LexTable, i: nat, a: Ref, b: Ref)
    requires Consistent(table) && LexesShow(table, i, a) && LexesTail(table, i + Width(a), b)
    ensures table[i].Success? && table[i].value.next < |table|
    ensures ReadListAt(table, table[i].value) == Wrap(Some(Cell(a, b)), table[i + Width(a) + TailWidth(b)])
    decreases Size(a) + Size(b) + 1, 1
  {
    if b.None? {
      ReadListNil(table, i, a, b);
    } else if b.value.Cell? {
      ReadListCons(table, i, a, b);
    } else {
      ReadListDot(table, i, a, b);
    }
  }

  /** The inside of a printed list `(a)`. */
  lemma {:induction false} ReadListNil(table: LexTable, i: nat, a: Ref, b: Ref)
    requires b.None?
    requires Consistent(table) && LexesShow(table, i, a) && LexesTail(table, i + Width(a), b)
    ensures table[i].Success? && table[i].value.next < |table|
    ensures ReadListAt(table, table[i].value) == Wrap(Some(Cell(a, b)), table[i + Width(a) + TailWidth(b)])
    decreases Size(a) + Size(b) + 1, 0
  {
    var k := i + Width(a);
    FirstLexed(table, i, a);
    ReadLexed(table, i, a);
    ElementThenClose(table, table[i].value, a, k, i + Width(a) + TailWidth(b));
  }

  /** The inside of a printed list `(a x ...)`. */
  lemma {:induction false} ReadListCons(table: LexTable, i: nat, a: Ref, b: Ref)
    requires b.Some? && b.value.Cell?
    requires Consistent(table) && LexesShow(table, i, a) && LexesTail(table, i + Width(a), b)
    ensures table[i].Success? && table[i].value.next < |table|
    ensures ReadListAt(table, table[i].value) == Wrap(Some(Cell(a, b)), table[i + Width(a) + TailWidth(b)])
    decreases Size(a) + Size(b) + 1, 0
  {
    var k := i + Width(a);
    ReadConsTail(table, k, b);
    FirstLexed(table, i, a);
    ReadLexed(table, i, a);
    ElementThenList(table, table[i].value, a, k, b, k + TailWidth(b), k + TailWidth(b));
  }

  /** Reading the tokens of a printed list tail ` x ...` after its element separator gives the tail back. */
  lemma {:induction false} ReadConsTail(table: LexTable, k: nat, b: Ref)
    requires b.Some? && b.value.Cell?
    requires Consistent(table) && LexesTail(table, k, b)
    ensures k + 1 < |table| && table[k] == table[k + 1] && table[k + 1].Success?
    ensures table[k + 1].value.token != Some(DotToken) && table[k + 1].value.next < |table|
    ensures k + TailWidth(b) < |table|
    ensures ReadListAt(table, table[k + 1].value) == Wrap(b, table[k + TailWidth(b)])
    decreases Size(b), 2
  {
    var x, y := b.value.first, b.value.second;
    LexesConsParts(table, k, x, y);
    FirstLexed(table, k + 1, x);
    ReadListLexed(table, k + 1, x, y);
  }

  /** The inside of a printed pair `(a . b)`. */
  lemma {:induction false} ReadListDot(table: LexTable, i: nat, a: Ref, b: Ref)
    requires b.Some? && !b.value.Cell?
    requires Consistent(table) && LexesShow(table, i, a) && LexesTail(table, i + Width(a), b)
    ensures table[i].Success? && table[i].value.next < |table|
    ensures ReadListAt(table, table[i].value) == Wrap(Some(Cell(a, b)), table[i + Width(a) + TailWidth(b)])
    decreases Size(a) + Size(b) + 1, 0
  {
    LexesDotParts(table, i + Width(a), b);
    ReadLexed(table, i + Width(a) + 3, b);
    FirstLexed(table, i, a);
    ReadLexed(table, i, a);
    ElementDotElement(table, table[i].value, a, i + Width(a), b, i + Width(a) + 3 + Width(b), i + Width(a) + TailWidth(b));
  }

  /** The scan results of a printed list tail ` x ...`, part by part. */
  lemma LexesConsParts(table: LexTable, k: nat, x: Ref, y: Ref)
    requires LexesTail(table, k, Some(Cell(x, y)))
    ensures k + 1 < |table| && table[k] == table[k + 1]
    ensures LexesShow(table, k + 1, x) && LexesTail(table, k + 1 + Width(x), y)
    ensures TailWidth(Some(Cell(x, y))) == 1 + Width(x) + TailWidth(y)
  {
  }

  /** The scan results of a printed dotted tail ` . b)`, part by part. */
  lemma LexesDotParts(table: LexTable, k: nat, b: Ref)
    requires b.Some? && !b.value.Cell? && LexesTail(table, k, b)
    ensures k + 4 + Width(b) < |table| && TailWidth(b) == 4 + Width(b)
    ensures table[k] == Success(Step(Some(DotToken), k + 2)) && table[k + 2] == table[k + 3]
    ensures LexesShow(table, k + 3, b)
    ensures table[k + 3 + Width(b)] == Success(Step(Some(BracketToken(Close)), k + 3 + Width(b) + 1))
  {
  }

  /** `ReadList` on an element followed by `)`. */
  lemma ElementThenClose(table: LexTable, st: Step, first: Ref, k: nat, e: nat)
    requires Consistent(table) && st.next < |table| && st.token.Some? && st.token != Some(BracketToken(Close))
    requires e == k + 1 < |table| && table[k] == Success(Step(Some(BracketToken(Close)), e))
    requires ReadAt(table, st) == Wrap(first, table[k])
    ensures ReadListAt(table, st) == Wrap(Some(Cell(first, None)), table[e])
  {
  }

  /** `ReadList` on an element followed by the rest of a list. */
  lemma ElementThenList(table: LexTable, st: Step, first: Ref, k: nat, rest: Ref, e: nat, end: nat)
    requires Consistent(table) && st.next < |table| && st.token.Some? && st.token != Some(BracketToken(Close))
    requires k + 1 < |table| && table[k] == table[k + 1] && table[k + 1].Success?
    requires table[k + 1].value.token != Some(DotToken)
    requires ReadAt(table, st) == Wrap(first, table[k])
    requires end == e < |table| && ReadListAt(table, table[k + 1].value) == Wrap(rest, table[e])
    ensures ReadListAt(table, st) == Wrap(Some(Cell(first, rest)), table[end])
  {
  }

  /** `ReadList` on an element, a dot, a second element and `)`. */
  lemma ElementDotElement(table: LexTable, st: Step, first: Ref, k: nat, second: Ref, m: nat, e: nat)
    requires Consistent(table) && st.next < |table| && st.token.Some? && st.token != Some(BracketToken(Close))
    requires k + 3 <= m && e == m + 1 < |table|
    requires table[k] == Success(Step(Some(DotToken), k + 2)) && table[k + 2] == table[k + 3] && table[k + 3].Success?
    requires ReadAt(table, st) == Wrap(first, table[k])
    requires table[k + 3].value.next < |table| && ReadAt(table, table[k + 3].value) == Wrap(second, table[m])
    requires table[m] == Success(Step(Some(BracketToken(Close)), m + 1))
    ensures ReadListAt(table, st) == Wrap(Some(Cell(first, second)), table[e])
  {
  }

  /**
   * The round trip: a tokenizer opened on the printed form of a well-formed
   * tree is positioned on its first token, `Read` gives the tree back, and
   * the input is then exhausted.
   */
  lemma ReadPrinted(r: Ref)
    requires WellFormed(r)
    ensures Scan(Show(r), 0).Success?
    ensures ReadAt(Lex(Show(r)), Scan(Show(r), 0).value) == Success(Parsed(r, Step(None, |Show(r)|)))
  {
    var s := Show(r);
    ShowWidth(r);
    LexShow(s, 0, r);
    LexAt(s, 0);
    LexAt(s, |s|);
    assert SpaceRunEnd(s, |s|) == |s|;
    ReadLexed(Lex(s), 0, r);
  }
}
