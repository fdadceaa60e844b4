/**
 * The scanner for foreign_keys pragmas (src/d1_migration_manifest.rs). The source
 * fuses lexing with a state machine in one pass over bytes; here that pass is
 * proved equal to splitting the text into lexemes and statements first.
 */
module PragmaScan {
  import opened Prelude

  const FOREIGN_KEYS: Bytes := Ascii("foreign_keys")
  const BOM: Bytes := [0xEF, 0xBB, 0xBF]

  predicate WordByte(b: byte) {
    IsLetter(b) || IsDigit(b) || b == 95
  }

  predicate SpaceByte(b: byte) {
    b == 32 || b == 9 || b == 10 || b == 12 || b == 13
  }

  predicate LineEnd(b: byte) {
    b == 10 || b == 13
  }

  // ---- Lexemes ----

  datatype Lexeme =
    | Trivia
    | Semicolon
    | Dot
    | Name(text: Bytes)
    | Quoted(text: Bytes, closed: bool)
    | Other

  /** A lexeme, the bytes it takes, and whether more input could still have made it longer. */
  datatype Scanned = Scanned(lexeme: Lexeme, length: nat, open: bool)

  function WordLength(s: Bytes): (n: nat)
    ensures n <= |s|
  {
    if s == [] || !WordByte(s[0]) then 0 else 1 + WordLength(s[1..])
  }

  function LineLength(s: Bytes): (n: nat)
    ensures n <= |s|
  {
    if s == [] || LineEnd(s[0]) then 0 else 1 + LineLength(s[1..])
  }

  /** The bytes of a block comment after its opening, and whether it is closed. */
  function BlockLength(s: Bytes): (r: (nat, bool))
    ensures r.0 <= |s|
  {
    if s == [] then (0, false)
    else if |s| >= 2 && s[0] == 42 && s[1] == 47 then (2, true)
    else (1 + BlockLength(s[1..]).0, BlockLength(s[1..]).1)
  }

  /** The text after an opening quote: its content with doubled quotes halved, its bytes, and whether it is closed. */
  function Unquote(s: Bytes, closing: byte): (r: (Bytes, nat, bool))
    ensures r.1 <= |s|
  {
    if s == [] then ([], 0, false)
    else if s[0] != closing then
      var (text, n, closed) := Unquote(s[1..], closing);
      ([s[0]] + text, 1 + n, closed)
    else if |s| >= 2 && s[1] == closing then
      var (text, n, closed) := Unquote(s[2..], closing);
      ([closing] + text, 2 + n, closed)
    else ([], 1, true)
  }

  function Closing(quote: byte): byte {
    if quote == 91 then 93 else quote
  }

  predicate Quote(b: byte) {
    b == 39 || b == 34 || b == 96 || b == 91
  }

  predicate LineComment(s: Bytes) {
    |s| >= 2 && s[0] == 45 && s[1] == 45
  }

  predicate BlockComment(s: Bytes) {
    |s| >= 2 && s[0] == 47 && s[1] == 42
  }

  datatype Kind = Mark | Semi | Line | Block | QuotedText | Point | Space | Word | Else

  /** The first bytes decide what kind of lexeme starts here. */
  function KindOf(s: Bytes): Kind
    requires s != []
  {
    if BOM <= s then Mark
    else if s[0] == 59 then Semi
    else if LineComment(s) then Line
    else if BlockComment(s) then Block
    else if Quote(s[0]) then QuotedText
    else if s[0] == 46 then Point
    else if SpaceByte(s[0]) then Space
    else if WordByte(s[0]) then Word
    else Else
  }

  function LexOne(s: Bytes): (r: Scanned)
    requires s != []
    ensures 1 <= r.length <= |s|
  {
    match KindOf(s)
    case Mark => Scanned(Trivia, 3, false)
    case Semi => Scanned(Semicolon, 1, false)
    case Line => Scanned(Trivia, 2 + LineLength(s[2..]), 2 + LineLength(s[2..]) == |s|)
    case Block => Scanned(Trivia, 2 + BlockLength(s[2..]).0, !BlockLength(s[2..]).1)
    case QuotedText =>
      var (text, n, closed) := Unquote(s[1..], Closing(s[0]));
      Scanned(Quoted(text, closed), 1 + n, !closed)
    case Point => Scanned(Dot, 1, false)
    case Space => Scanned(Trivia, 1, false)
    case Word => Scanned(Name(s[..WordLength(s)]), WordLength(s), false)
    case Else => Scanned(Other, 1, false)
  }

  function Tokenise(s: Bytes): seq<Lexeme> {
    if s == [] then [] else [LexOne(s).lexeme] + Tokenise(s[LexOne(s).length..])
  }

  /** No quote or comment is still open at the end. */
  predicate LexicallyClosed(s: Bytes) {
    s == [] || (!LexOne(s).open && LexicallyClosed(s[LexOne(s).length..]))
  }

  // ---- Statements ----

  predicate NamesForeignKeys(l: Lexeme) {
    match l
    case Name(t) => SameWord(t, FOREIGN_KEYS)
    case Quoted(t, closed) => closed && SameWord(t, FOREIGN_KEYS)
    case _ => false
  }

  predicate IsKeyword(l: Lexeme, word: Bytes) {
    l.Name? && SameWord(l.text, word)
  }

  /** After PRAGMA: the name itself, or any name, then quoted text if any, then a dot and the name. */
  predicate NamesPragma(ls: seq<Lexeme>) {
    && ls != []
    && (NamesForeignKeys(ls[0]) || ((ls[0].Name? || ls[0].Quoted?) && DottedName(ls[1..])))
  }

  predicate DottedName(ls: seq<Lexeme>) {
    && ls != []
    && if ls[0] == Dot then |ls| > 1 && NamesForeignKeys(ls[1]) else ls[0].Quoted? && DottedName(ls[1..])
  }

  /** One statement without trivia sets or reads the pragma. */
  predicate SetsPragma(ls: seq<Lexeme>) {
    || (|ls| >= 1 && IsKeyword(ls[0], Ascii("pragma")) && NamesPragma(ls[1..]))
    || (|ls| >= 2 && IsKeyword(ls[0], Ascii("explain")) && IsKeyword(ls[1], Ascii("pragma")) && NamesPragma(ls[2..]))
    || (|ls| >= 4 && IsKeyword(ls[0], Ascii("explain")) && IsKeyword(ls[1], Ascii("query"))
        && IsKeyword(ls[2], Ascii("plan"))
        && IsKeyword(ls[3], Ascii("pragma")) && NamesPragma(ls[4..]))
  }

  function DropTrivia(ls: seq<Lexeme>): seq<Lexeme> {
    if ls == [] then [] else (if ls[0] == Trivia then [] else [ls[0]]) + DropTrivia(ls[1..])
  }

  /** Some statement of the lexemes, taken without trivia, names the pragma. */
  predicate SomeStatementSets(ls: seq<Lexeme>) {
    exists i, j :: 0 <= i <= j <= |ls| && StatementAt(ls, i, j) && SetsPragma(DropTrivia(ls[i..j]))
  }

  /** `ls[i..j]` is a whole statement: bounded by semicolons or the ends, with none inside. */
  predicate StatementAt(ls: seq<Lexeme>, i: nat, j: nat)
    requires i <= j <= |ls|
  {
    && (i == 0 || ls[i - 1] == Semicolon)
    && (j == |ls| || ls[j] == Semicolon)
    && Semicolon !in ls[i..j]
  }

  // ---- The state machine ----

  datatype ScanState =
    | StatementStart
    | ExplainStatement
    | ExplainQuery
    | ExplainQueryPlan
    | PragmaName
    | SchemaDot
    | SchemaPragmaName
    | IgnoreStatement
    | Found

  function OnName(state: ScanState, w: Bytes): ScanState {
    match state
    case StatementStart =>
      if SameWord(w, Ascii("pragma")) then PragmaName
      else if SameWord(w, Ascii("explain")) then ExplainStatement else IgnoreStatement
    case ExplainStatement =>
      if SameWord(w, Ascii("pragma")) then PragmaName
      else if SameWord(w, Ascii("query")) then ExplainQuery else IgnoreStatement
    case ExplainQuery => if SameWord(w, Ascii("plan")) then ExplainQueryPlan else IgnoreStatement
    case ExplainQueryPlan => if SameWord(w, Ascii("pragma")) then PragmaName else IgnoreStatement
    case PragmaName => if SameWord(w, FOREIGN_KEYS) then Found else SchemaDot
    case SchemaPragmaName => if SameWord(w, FOREIGN_KEYS) then Found else IgnoreStatement
    case Found => Found
    case _ => IgnoreStatement
  }

  /** A quoted token after a schema name leaves the machine where it is. */
  function OnQuoted(state: ScanState, isForeignKeys: bool): ScanState {
    match state
    case PragmaName => if isForeignKeys then Found else SchemaDot
    case SchemaPragmaName => if isForeignKeys then Found else IgnoreStatement
    case SchemaDot => SchemaDot
    case Found => Found
    case _ => IgnoreStatement
  }

  function OnLexeme(state: ScanState, l: Lexeme): ScanState {
    if state == Found then Found
    else
      match l
      case Trivia => state
      case Semicolon => StatementStart
      case Dot => if state == SchemaDot then SchemaPragmaName else IgnoreStatement
      case Name(w) => OnName(state, w)
      case Quoted(_, _) => OnQuoted(state, NamesForeignKeys(l))
      case Other => IgnoreStatement
  }

  function RunMachine(state: ScanState, ls: seq<Lexeme>): ScanState
    decreases |ls|
  {
    if ls == [] then state else RunMachine(OnLexeme(state, ls[0]), ls[1..])
  }

  predicate Finds(state: ScanState, ls: seq<Lexeme>) {
    RunMachine(state, ls) == Found
  }

  lemma {:induction false} FoundStays(ls: seq<Lexeme>)
    ensures Finds(Found, ls)
  {
    if ls != [] { FoundStays(ls[1..]); }
  }

  lemma {:induction false} IgnoreFindsNothing(ls: seq<Lexeme>)
    requires Semicolon !in ls
    ensures !Finds(IgnoreStatement, ls)
  {
    if ls != [] { IgnoreFindsNothing(ls[1..]); }
  }

  lemma {:induction false} TriviaIsNothing(state: ScanState, ls: seq<Lexeme>)
    ensures RunMachine(state, DropTrivia(ls)) == RunMachine(state, ls)
    decreases |ls|
  {
    if ls != [] {
      TriviaIsNothing(OnLexeme(state, ls[0]), ls[1..]);
      if ls[0] != Trivia { assert DropTrivia(ls)[1..] == DropTrivia(ls[1..]); }
      else { assert DropTrivia(ls) == DropTrivia(ls[1..]); }
    }
  }

  lemma {:induction false} DroppedHasNone(ls: seq<Lexeme>)
    ensures Trivia !in DropTrivia(ls) && (Semicolon in DropTrivia(ls) ==> Semicolon in ls)
  {
    if ls != [] { DroppedHasNone(ls[1..]); }
  }

  lemma {:induction false} FromSchemaDot(ls: seq<Lexeme>)
    requires Semicolon !in ls && Trivia !in ls
    ensures Finds(SchemaDot, ls) <==> DottedName(ls)
  {
    if ls != [] {
      if ls[0].Quoted? {
        FromSchemaDot(ls[1..]);
      } else if ls[0] != Dot {
        IgnoreFindsNothing(ls[1..]);
      } else if |ls| == 1 {
        assert RunMachine(SchemaPragmaName, ls[1..]) == SchemaPragmaName;
      } else {
        assert RunMachine(SchemaDot, ls) == RunMachine(OnLexeme(SchemaPragmaName, ls[1]), ls[1..][1..]);
        FoundStays(ls[1..][1..]);
        IgnoreFindsNothing(ls[1..][1..]);
      }
    }
  }

  lemma FromPragmaName(ls: seq<Lexeme>)
    requires Semicolon !in ls && Trivia !in ls
    ensures Finds(PragmaName, ls) <==> NamesPragma(ls)
  {
    if ls != [] {
      FoundStays(ls[1..]);
      IgnoreFindsNothing(ls[1..]);
      FromSchemaDot(ls[1..]);
    }
  }

  lemma KeywordsDiffer()
    ensures forall w :: !(SameWord(w, Ascii("pragma")) && SameWord(w, Ascii("explain")))
    ensures forall w :: !(SameWord(w, Ascii("pragma")) && SameWord(w, Ascii("query")))
  {
    assert Lower(Ascii("pragma"))[0] == 112 && Lower(Ascii("explain"))[0] == 101 && Lower(Ascii("query"))[0] == 113;
  }

  lemma TwoSteps(state: ScanState, ls: seq<Lexeme>)
    requires |ls| >= 2
    ensures RunMachine(state, ls) == RunMachine(OnLexeme(OnLexeme(state, ls[0]), ls[1]), ls[2..])
  {
    assert ls[1..][1..] == ls[2..];
  }

  lemma FromExplain(ls: seq<Lexeme>)
    requires Semicolon !in ls && Trivia !in ls
    ensures Finds(ExplainStatement, ls) <==>
            (|ls| >= 1 && IsKeyword(ls[0], Ascii("pragma")) && NamesPragma(ls[1..]))
            || (|ls| >= 3 && IsKeyword(ls[0], Ascii("query")) && IsKeyword(ls[1], Ascii("plan"))
                && IsKeyword(ls[2], Ascii("pragma")) && NamesPragma(ls[3..]))
  {
    KeywordsDiffer();
    if |ls| >= 1 {
      IgnoreFindsNothing(ls[1..]);
      FromPragmaName(ls[1..]);
      if |ls| == 1 {
        assert RunMachine(OnLexeme(ExplainStatement, ls[0]), ls[1..]) == OnLexeme(ExplainStatement, ls[0]);
      } else {
        TwoSteps(ExplainStatement, ls);
        IgnoreFindsNothing(ls[2..]);
        if |ls| == 2 {
          var after := OnLexeme(OnLexeme(ExplainStatement, ls[0]), ls[1]);
          assert RunMachine(after, ls[2..]) == after;
        } else {
          assert ls[2..][1..] == ls[3..];
          IgnoreFindsNothing(ls[3..]);
          FromPragmaName(ls[3..]);
        }
      }
    }
  }

  /** On one statement without trivia the machine finds exactly what the pattern describes. */
  lemma OneStatement(ls: seq<Lexeme>)
    requires Semicolon !in ls && Trivia !in ls
    ensures Finds(StatementStart, ls) <==> SetsPragma(ls)
  {
    KeywordsDiffer();
    if |ls| >= 1 {
      IgnoreFindsNothing(ls[1..]);
      FromPragmaName(ls[1..]);
      FromExplain(ls[1..]);
      if |ls| >= 2 { assert ls[1..][1..] == ls[2..]; }
      if |ls| >= 4 { assert ls[1..][3..] == ls[4..]; }
    }
  }

  // ---- Statements within a text ----

  lemma {:induction false} SplitAtSemicolon(state: ScanState, a: seq<Lexeme>, b: seq<Lexeme>)
    ensures Finds(state, a + [Semicolon] + b) <==> Finds(state, a) || Finds(StatementStart, b)
    decreases |a|
  {
    var ls := a + [Semicolon] + b;
    if a == [] {
      assert ls[1..] == b;
      FoundStays(b);
    } else {
      assert ls[1..] == a[1..] + [Semicolon] + b;
      SplitAtSemicolon(OnLexeme(state, a[0]), a[1..], b);
    }
  }

  /** The first semicolon, or the length. */
  function FirstSemicolon(ls: seq<Lexeme>): (k: nat)
    ensures k <= |ls| && Semicolon !in ls[..k] && (k < |ls| ==> ls[k] == Semicolon)
  {
    if ls == [] || ls[0] == Semicolon then 0
    else
      var k := 1 + FirstSemicolon(ls[1..]);
      assert ls[..k] == [ls[0]] + ls[1..][..k - 1];
      k
  }

  lemma LaterStatement(ls: seq<Lexeme>, k: nat)
    requires k < |ls| && ls[k] == Semicolon && SomeStatementSets(ls[k + 1..])
    ensures SomeStatementSets(ls)
  {
    var later := ls[k + 1..];
    var i, j :| 0 <= i <= j <= |later| && StatementAt(later, i, j) && SetsPragma(DropTrivia(later[i..j]));
    assert ls[i + k + 1..j + k + 1] == later[i..j];
    assert StatementAt(ls, i + k + 1, j + k + 1);
  }

  lemma FirstStatement(ls: seq<Lexeme>, k: nat)
    requires k < |ls| && k == FirstSemicolon(ls) && SetsPragma(DropTrivia(ls[..k]))
    ensures SomeStatementSets(ls)
  {
    assert ls[0..k] == ls[..k];
    assert StatementAt(ls, 0, k);
  }

  lemma NoSemicolonInside(ls: seq<Lexeme>, i: nat, j: nat)
    requires i <= j <= |ls| && Semicolon !in ls[i..j]
    ensures forall k :: i <= k < j ==> ls[k] != Semicolon
  {
    forall k | i <= k < j ensures ls[k] != Semicolon { assert ls[i..j][k - i] == ls[k]; }
  }

  /** A statement is the first one or lies behind the first semicolon. */
  lemma StatementIsFirstOrLater(ls: seq<Lexeme>, k: nat, i: nat, j: nat)
    requires k < |ls| && k == FirstSemicolon(ls) && i <= j <= |ls| && StatementAt(ls, i, j)
    ensures i > k || (i == 0 && j == k)
  {
    assert ls[0..k] == ls[..k];
    NoSemicolonInside(ls, 0, k);
    NoSemicolonInside(ls, i, j);
  }

  lemma StatementInLater(ls: seq<Lexeme>, k: nat, i: nat, j: nat)
    requires k < i <= j <= |ls| && ls[k] == Semicolon && StatementAt(ls, i, j) && SetsPragma(DropTrivia(ls[i..j]))
    ensures SomeStatementSets(ls[k + 1..])
  {
    var later := ls[k + 1..];
    assert ls[i..j] == later[i - k - 1..j - k - 1];
    assert StatementAt(later, i - k - 1, j - k - 1);
  }

  lemma FirstStatementOrLater(ls: seq<Lexeme>, k: nat)
    requires k < |ls| && k == FirstSemicolon(ls) && SomeStatementSets(ls)
    ensures SetsPragma(DropTrivia(ls[..k])) || SomeStatementSets(ls[k + 1..])
  {
    var i, j :| 0 <= i <= j <= |ls| && StatementAt(ls, i, j) && SetsPragma(DropTrivia(ls[i..j]));
    StatementIsFirstOrLater(ls, k, i, j);
    if i == 0 {
      assert ls[i..j] == ls[..k];
    } else {
      StatementInLater(ls, k, i, j);
    }
  }

  lemma OneStatementWithTrivia(ls: seq<Lexeme>)
    requires Semicolon !in ls
    ensures Finds(StatementStart, ls) <==> SetsPragma(DropTrivia(ls))
  {
    TriviaIsNothing(StatementStart, ls);
    DroppedHasNone(ls);
    OneStatement(DropTrivia(ls));
  }

  /** Over whole texts: the machine finds the pragma exactly when some statement names it. */
  lemma {:induction false} MachineFindsStatements(ls: seq<Lexeme>)
    ensures Finds(StatementStart, ls) <==> SomeStatementSets(ls)
    decreases |ls|
  {
    var k := FirstSemicolon(ls);
    OneStatementWithTrivia(ls[..k]);
    if k == |ls| {
      assert ls[..k] == ls && ls[0..|ls|] == ls;
      if SomeStatementSets(ls) {
        var i, j :| 0 <= i <= j <= |ls| && StatementAt(ls, i, j) && SetsPragma(DropTrivia(ls[i..j]));
        assert i == 0 && j == |ls|;
      }
      if SetsPragma(DropTrivia(ls)) { assert StatementAt(ls, 0, |ls|); }
    } else {
      assert ls == ls[..k] + [Semicolon] + ls[k + 1..];
      SplitAtSemicolon(StatementStart, ls[..k], ls[k + 1..]);
      MachineFindsStatements(ls[k + 1..]);
      if SomeStatementSets(ls) { FirstStatementOrLater(ls, k); }
      if SetsPragma(DropTrivia(ls[..k])) { FirstStatement(ls, k); }
      if SomeStatementSets(ls[k + 1..]) { LaterStatement(ls, k); }
    }
  }

  // ---- Appending to a lexically closed text ----

  lemma {:induction false} WordLengthAppend(a: Bytes, b: Bytes)
    requires b != [] && !WordByte(b[0])
    ensures WordLength(a + b) == WordLength(a)
  {
    if a == [] {
      assert a + b == b;
    } else {
      assert (a + b)[1..] == a[1..] + b;
      WordLengthAppend(a[1..], b);
    }
  }

  lemma {:induction false} LineLengthAppend(a: Bytes, b: Bytes)
    requires LineLength(a) < |a|
    ensures LineLength(a + b) == LineLength(a)
  {
    assert (a + b)[1..] == a[1..] + b;
    if !LineEnd(a[0]) { LineLengthAppend(a[1..], b); }
  }

  lemma {:induction false} BlockLengthAppend(a: Bytes, b: Bytes)
    requires BlockLength(a).1
    ensures BlockLength(a + b) == BlockLength(a)
  {
    assert (a + b)[1..] == a[1..] + b;
    if !(|a| >= 2 && a[0] == 42 && a[1] == 47) {
      BlockLengthAppend(a[1..], b);
      assert |a| >= 2;
    }
  }

  lemma {:induction false} UnquoteAppend(a: Bytes, b: Bytes, closing: byte)
    requires Unquote(a, closing).2 && b != [] && b[0] != closing
    ensures Unquote(a + b, closing) == Unquote(a, closing)
  {
    assert (a + b)[1..] == a[1..] + b;
    if a[0] != closing {
      UnquoteAppend(a[1..], b, closing);
    } else if |a| >= 2 && a[1] == closing {
      assert (a + b)[2..] == a[2..] + b;
      UnquoteAppend(a[2..], b, closing);
    }
  }

  lemma KindAppend(a: Bytes, b: Bytes)
    requires a != [] && b != [] && b[0] == 59
    ensures KindOf(a + b) == KindOf(a)
  {
    var s := a + b;
    assert s[0] == a[0] && s[|a|] == 59;
    assert BOM <= s <==> BOM <= a by {
      if |a| >= 3 { assert s[..3] == a[..3]; }
    }
    assert |a| >= 2 ==> s[1] == a[1];
  }

  lemma LexOneAppend(a: Bytes, b: Bytes)
    requires a != [] && !LexOne(a).open && b != [] && b[0] == 59
    ensures LexOne(a + b) == LexOne(a)
  {
    var s := a + b;
    KindAppend(a, b);
    assert s[0] == a[0];
    match KindOf(a)
    case Line => assert s[2..] == a[2..] + b; LineLengthAppend(a[2..], b);
    case Block => assert s[2..] == a[2..] + b; BlockLengthAppend(a[2..], b);
    case QuotedText => assert s[1..] == a[1..] + b; UnquoteAppend(a[1..], b, Closing(a[0]));
    case Word => WordLengthAppend(a, b); assert s[..WordLength(a)] == a[..WordLength(a)];
    case _ =>
  }

  lemma TokeniseUnfolds(s: Bytes, n: nat, l: Lexeme)
    requires s != [] && n == LexOne(s).length && l == LexOne(s).lexeme
    ensures Tokenise(s) == [l] + Tokenise(s[n..])
  {
  }

  lemma {:induction false} TokeniseAppend(a: Bytes, b: Bytes)
    requires LexicallyClosed(a) && b != [] && b[0] == 59
    ensures Tokenise(a + b) == Tokenise(a) + Tokenise(b)
  {
    if a == [] {
      assert a + b == b;
    } else {
      LexOneAppend(a, b);
      var n, l := LexOne(a).length, LexOne(a).lexeme;
      TokeniseUnfolds(a, n, l);
      assert (a + b)[n..] == a[n..] + b;
      TokeniseUnfolds(a + b, n, l);
      TokeniseAppend(a[n..], b);
      Reassociate([l], Tokenise(a[n..]), Tokenise(b));
    }
  }

  /** What the scanner decides about a text. */
  predicate NamesForeignKeysPragma(s: Bytes) {
    Finds(StatementStart, Tokenise(s))
  }

  /** After a lexically closed text and a semicolon, the two parts are scanned independently. */
  lemma ScanDistributes(s1: Bytes, s2: Bytes)
    requires LexicallyClosed(s1)
    ensures NamesForeignKeysPragma(s1 + [59] + s2) <==> NamesForeignKeysPragma(s1) || NamesForeignKeysPragma(s2)
  {
    TokeniseJoined(s1, s2);
    SplitAtSemicolon(StatementStart, Tokenise(s1), Tokenise(s2));
  }

  lemma TokeniseJoined(s1: Bytes, s2: Bytes)
    requires LexicallyClosed(s1)
    ensures Tokenise(s1 + [59] + s2) == Tokenise(s1) + [Semicolon] + Tokenise(s2)
  {
    SemicolonFirst(s2);
    Reassociate(s1, [59], s2);
    TokeniseAppend(s1, [59] + s2);
    Reassociate(Tokenise(s1), [Semicolon], Tokenise(s2));
  }

  lemma SemicolonFirst(s: Bytes)
    ensures Tokenise([59] + s) == [Semicolon] + Tokenise(s)
  {
    var b: Bytes := [59] + s;
    assert b[0] == 59 && BOM[0] == 0xEF;
    assert KindOf(b) == Semi && b[1..] == s;
  }

  // ---- The scanner itself ----

  /** Skip a line comment's text. */
  method SkipLine(bytes: Bytes, start: nat) returns (cursor: nat)
    requires start <= |bytes|
    ensures cursor == start + LineLength(bytes[start..])
  {
    cursor := start;
    while cursor < |bytes| && !LineEnd(bytes[cursor])
      invariant start <= cursor <= |bytes|
      invariant start + LineLength(bytes[start..]) == cursor + LineLength(bytes[cursor..])
    {
      assert bytes[cursor..][1..] == bytes[cursor + 1..];
      cursor := cursor + 1;
    }
  }

  /** Skip a block comment's text and its closing marker. */
  method SkipBlock(bytes: Bytes, start: nat) returns (cursor: nat)
    requires start <= |bytes|
    ensures cursor == start + BlockLength(bytes[start..]).0
  {
    cursor := start;
    while cursor < |bytes| && !(bytes[cursor] == 42 && cursor + 1 < |bytes| && bytes[cursor + 1] == 47)
      invariant start <= cursor <= |bytes|
      invariant start + BlockLength(bytes[start..]).0 == cursor + BlockLength(bytes[cursor..]).0
    {
      assert bytes[cursor..][1..] == bytes[cursor + 1..];
      cursor := cursor + 1;
    }
    cursor := if cursor + 2 <= |bytes| then cursor + 2 else |bytes|;
  }

  method WordEnd(bytes: Bytes, start: nat) returns (cursor: nat)
    requires start <= |bytes|
    ensures cursor == start + WordLength(bytes[start..])
  {
    cursor := start;
    while cursor < |bytes| && WordByte(bytes[cursor])
      invariant start <= cursor <= |bytes|
      invariant start + WordLength(bytes[start..]) == cursor + WordLength(bytes[cursor..])
    {
      assert bytes[cursor..][1..] == bytes[cursor + 1..];
      cursor := cursor + 1;
    }
  }

  /** `done` agrees with the start of `expected` up to letter case. */
  predicate AgreesSoFar(done: Bytes, expected: Bytes) {
    |done| <= |expected| && forall i :: 0 <= i < |done| ==> LowerByte(done[i]) == LowerByte(expected[i])
  }

  lemma AgreesOneMore(done: Bytes, b: byte, expected: Bytes)
    ensures AgreesSoFar(done + [b], expected) <==>
            AgreesSoFar(done, expected) && |done| < |expected| && LowerByte(b) == LowerByte(expected[|done|])
  {
    var next := done + [b];
    assert next[|done|] == b && forall i :: 0 <= i < |done| ==> next[i] == done[i];
  }

  /** What has been read is a start of `expected`, without a quote inside. */
  predicate Matching(done: Bytes, closing: byte, expected: Bytes) {
    AgreesSoFar(done, expected) && closing !in done
  }

  lemma MatchingOneMore(done: Bytes, b: byte, closing: byte, expected: Bytes)
    ensures Matching(done + [b], closing, expected) <==>
            && Matching(done, closing, expected) && b != closing
            && |done| < |expected| && LowerByte(b) == LowerByte(expected[|done|])
  {
    AgreesOneMore(done, b, expected);
    assert forall x :: x in done + [b] <==> x in done || x == b;
  }

  lemma MatchingWhole(text: Bytes, closing: byte, expected: Bytes)
    ensures closing !in text && SameWord(text, expected) <==> Matching(text, closing, expected) && |text| == |expected|
  {
    AgreesWhole(text, expected);
  }

  lemma MatchingStarts(closing: byte, expected: Bytes)
    ensures Matching([], closing, expected)
  {
  }

  lemma ReadingStarts(bytes: Bytes, start: nat, closing: byte)
    requires start <= |bytes|
    ensures Reading(bytes, start, start, closing, [])
  {
    var rest := Unquote(bytes[start..], closing);
    assert [] + rest.0 == rest.0;
  }

  lemma AgreesWhole(text: Bytes, expected: Bytes)
    ensures SameWord(text, expected) <==> AgreesSoFar(text, expected) && |text| == |expected|
  {
    if SameWord(text, expected) {
      assert |Lower(text)| == |Lower(expected)|;
      forall i | 0 <= i < |text| ensures LowerByte(text[i]) == LowerByte(expected[i]) {
        assert Lower(text)[i] == Lower(expected)[i];
      }
    }
    if |text| == |expected| && AgreesSoFar(text, expected) {
      assert Lower(text) == Lower(expected);
    }
  }

  /** `done` has been read of the quoted text that starts at `start`; the rest of it starts at `cursor`. */
  ghost predicate Reading(bytes: Bytes, start: nat, cursor: nat, closing: byte, done: Bytes)
    requires start <= cursor <= |bytes|
  {
    var rest := Unquote(bytes[cursor..], closing);
    Unquote(bytes[start..], closing) == (done + rest.0, cursor - start + rest.1, rest.2)
  }

  lemma ReadingPlain(bytes: Bytes, start: nat, cursor: nat, closing: byte, done: Bytes)
    requires start <= cursor < |bytes| && Reading(bytes, start, cursor, closing, done) && bytes[cursor] != closing
    ensures Reading(bytes, start, cursor + 1, closing, done + [bytes[cursor]])
  {
    var rest := Unquote(bytes[cursor + 1..], closing);
    assert bytes[cursor..][1..] == bytes[cursor + 1..];
    assert done + ([bytes[cursor]] + rest.0) == done + [bytes[cursor]] + rest.0;
  }

  lemma ReadingDoubled(bytes: Bytes, start: nat, cursor: nat, closing: byte, done: Bytes)
    requires start <= cursor < |bytes| - 1 && Reading(bytes, start, cursor, closing, done)
    requires bytes[cursor] == closing && bytes[cursor + 1] == closing
    ensures Reading(bytes, start, cursor + 2, closing, done + [closing])
  {
    var rest := Unquote(bytes[cursor + 2..], closing);
    assert bytes[cursor..][2..] == bytes[cursor + 2..] && bytes[cursor..][1] == closing;
    assert done + ([closing] + rest.0) == done + [closing] + rest.0;
  }

  lemma ReadingEnds(bytes: Bytes, start: nat, cursor: nat, closing: byte, done: Bytes)
    requires start <= cursor <= |bytes| && Reading(bytes, start, cursor, closing, done)
    requires cursor < |bytes| ==> bytes[cursor] == closing && (cursor + 1 < |bytes| ==> bytes[cursor + 1] != closing)
    ensures var closed := cursor < |bytes|;
            Unquote(bytes[start..], closing) == (done, cursor - start + (if closed then 1 else 0), closed)
  {
    assert done + [] == done;
  }

  /** Compare a quoted token with `expected` while skipping it; a token with a quote inside never matches. */
  method ConsumeQuotedSqlToken(bytes: Bytes, start: nat, closing: byte, expected: Bytes)
      returns (cursor: nat, found: bool)
    requires start < |bytes|
    ensures var (text, n, closed) := Unquote(bytes[start + 1..], closing);
            cursor == start + 1 + n && (found <==> closed && closing !in text && SameWord(text, expected))
  {
    cursor := start + 1;
    var expectedCursor := 0;
    var matches, closed := true, false;
    ghost var done: Bytes := [];
    hide Matching, Reading;
    ReadingStarts(bytes, cursor, closing);
    MatchingStarts(closing, expected);
    while cursor < |bytes|
      invariant start + 1 <= cursor <= |bytes| && Reading(bytes, start + 1, cursor, closing, done)
      invariant matches <==> Matching(done, closing, expected)
      invariant matches ==> expectedCursor == |done|
      decreases |bytes| - cursor
    {
      MatchingOneMore(done, bytes[cursor], closing, expected);
      if bytes[cursor] == closing {
        if cursor + 1 < |bytes| && bytes[cursor + 1] == closing {
          ReadingDoubled(bytes, start + 1, cursor, closing, done);
          done := done + [closing];
          matches := false;
          cursor := cursor + 2;
          continue;
        }
        ReadingEnds(bytes, start + 1, cursor, closing, done);
        cursor := cursor + 1;
        closed := true;
        MatchingWhole(done, closing, expected);
        return cursor, closed && matches && expectedCursor == |expected|;
      }
      ReadingPlain(bytes, start + 1, cursor, closing, done);
      matches := matches && expectedCursor < |expected|
          && LowerByte(bytes[cursor]) == LowerByte(expected[expectedCursor]);
      done := done + [bytes[cursor]];
      expectedCursor := expectedCursor + 1;
      cursor := cursor + 1;
    }
    ReadingEnds(bytes, start + 1, cursor, closing, done);
    found := closed && matches && expectedCursor == |expected|;
  }

  lemma MachineAdvances(state: ScanState, s: Bytes)
    requires s != []
    ensures RunMachine(state, Tokenise(s)) ==
            RunMachine(OnLexeme(state, LexOne(s).lexeme), Tokenise(s[LexOne(s).length..]))
  {
    assert Tokenise(s)[1..] == Tokenise(s[LexOne(s).length..]);
  }

  /** No quote occurs in the name of the pragma, in whatever letter case. */
  lemma ForeignKeysHasNoQuote(closing: byte, text: Bytes)
    requires closing in {39, 34, 96, 93} && SameWord(text, FOREIGN_KEYS)
    ensures closing !in text
  {
    AgreesWhole(text, FOREIGN_KEYS);
    forall i | 0 <= i < |text| ensures text[i] != closing {
      assert LowerByte(text[i]) == LowerByte(FOREIGN_KEYS[i]);
    }
  }

  /** The end of the trivia at `start`: one space, a byte order mark, or a comment. */
  method SkipTrivia(bytes: Bytes, start: nat, kind: Kind) returns (cursor: nat)
    requires start < |bytes| && kind == KindOf(bytes[start..]) && kind in {Mark, Line, Block, Space}
    ensures cursor == start + LexOne(bytes[start..]).length <= |bytes|
  {
    match kind {
      case Line =>
        assert bytes[start..][2..] == bytes[start + 2..];
        cursor := SkipLine(bytes, start + 2);
      case Block =>
        assert bytes[start..][2..] == bytes[start + 2..];
        cursor := SkipBlock(bytes, start + 2);
      case Mark => cursor := start + 3;
      case Space => cursor := start + 1;
    }
  }

  /** The end of the lexeme at `start`, and the state the fused scanner moves to. */
  method ScanLexeme(bytes: Bytes, start: nat, before: ScanState) returns (cursor: nat, state: ScanState)
    requires start < |bytes| && before != Found
    ensures cursor == start + LexOne(bytes[start..]).length <= |bytes|
    ensures state == OnLexeme(before, LexOne(bytes[start..]).lexeme)
  {
    match KindOf(bytes[start..]) {
      case Semi =>
        state, cursor := StatementStart, start + 1;
      case QuotedText =>
        var isForeignKeys;
        assert bytes[start..][1..] == bytes[start + 1..];
        ghost var text := Unquote(bytes[start + 1..], Closing(bytes[start])).0;
        if SameWord(text, FOREIGN_KEYS) { ForeignKeysHasNoQuote(Closing(bytes[start]), text); }
        cursor, isForeignKeys := ConsumeQuotedSqlToken(bytes, start, Closing(bytes[start]), FOREIGN_KEYS);
        state := OnQuoted(before, isForeignKeys);
      case Point =>
        state, cursor := if before == SchemaDot then SchemaPragmaName else IgnoreStatement, start + 1;
      case Word =>
        cursor := WordEnd(bytes, start);
        assert bytes[start..cursor] == bytes[start..][..cursor - start];
        state := OnName(before, bytes[start..cursor]);
      case Else =>
        state, cursor := IgnoreStatement, start + 1;
      case kind =>
        cursor := SkipTrivia(bytes, start, kind);
        state := before;
    }
  }

  lemma MachineAdvancesAt(bytes: Bytes, cursor: nat, state: ScanState, next: nat)
    requires cursor < |bytes| && next == cursor + LexOne(bytes[cursor..]).length <= |bytes|
    ensures RunMachine(state, Tokenise(bytes[cursor..]))
         == RunMachine(OnLexeme(state, LexOne(bytes[cursor..]).lexeme), Tokenise(bytes[next..]))
  {
    MachineAdvances(state, bytes[cursor..]);
    assert bytes[cursor..][next - cursor..] == bytes[next..];
  }

  /** The one-pass scanner runs the machine over the lexemes of the text. */
  method ScanAll(bytes: Bytes) returns (found: bool)
    ensures found <==> NamesForeignKeysPragma(bytes)
  {
    var cursor, state := 0, StatementStart;
    assert bytes[0..] == bytes;
    while cursor < |bytes|
      invariant 0 <= cursor <= |bytes| && state != Found
      invariant RunMachine(StatementStart, Tokenise(bytes)) == RunMachine(state, Tokenise(bytes[cursor..]))
      decreases |bytes| - cursor
    {
      var next, after := ScanLexeme(bytes, cursor, state);
      MachineAdvancesAt(bytes, cursor, state, next);
      cursor, state := next, after;
      if state == Found {
        FoundStays(Tokenise(bytes[cursor..]));
        return true;
      }
    }
    assert Tokenise(bytes[cursor..]) == [];
    return false;
  }

  /** It answers what splitting into lexemes and then into statements would answer. */
  method ContainsForeignKeysPragma(bytes: Bytes) returns (found: bool)
    ensures found <==> NamesForeignKeysPragma(bytes)
    ensures found <==> SomeStatementSets(Tokenise(bytes))
  {
    MachineFindsStatements(Tokenise(bytes));
    found := ScanAll(bytes);
  }

  // ---- Executable text ----

  predicate Executable(ls: seq<Lexeme>) {
    exists i :: 0 <= i < |ls| && ls[i] != Trivia && ls[i] != Semicolon
  }

  lemma {:induction false} InertFindsNothing(ls: seq<Lexeme>)
    requires !Executable(ls)
    ensures !Finds(StatementStart, ls)
  {
    if ls != [] {
      assert ls[0] == Trivia || ls[0] == Semicolon;
      forall i | 0 <= i < |ls| - 1
          ensures ls[1..][i] == Trivia || ls[1..][i] == Semicolon { assert ls[1..][i] == ls[i + 1]; }
      InertFindsNothing(ls[1..]);
    }
  }

  /** A text that names the pragma has something to execute. */
  lemma PragmaIsExecutable(s: Bytes)
    requires NamesForeignKeysPragma(s)
    ensures Executable(Tokenise(s))
  {
    if !Executable(Tokenise(s)) { InertFindsNothing(Tokenise(s)); }
  }

  predicate ExecutableText(s: Bytes) {
    Executable(Tokenise(s))
  }

  lemma ExecutableAdvances(bytes: Bytes, cursor: nat)
    requires cursor < |bytes|
    ensures var one := LexOne(bytes[cursor..]);
            ExecutableText(bytes[cursor..]) <==>
                  one.lexeme !in {Trivia, Semicolon} || ExecutableText(bytes[cursor + one.length..])
  {
    var s, one := bytes[cursor..], LexOne(bytes[cursor..]);
    assert s[one.length..] == bytes[cursor + one.length..];
    var ls, rest := Tokenise(s), Tokenise(s[one.length..]);
    assert ls == [one.lexeme] + rest && ls[0] == one.lexeme;
    if Executable(ls) {
      var i :| 0 <= i < |ls| && ls[i] != Trivia && ls[i] != Semicolon;
      if i > 0 { assert rest[i - 1] == ls[i]; }
    }
    if Executable(rest) {
      var i :| 0 <= i < |rest| && rest[i] != Trivia && rest[i] != Semicolon;
      assert ls[i + 1] == rest[i];
    }
  }

  method ContainsNonTriviaSql(bytes: Bytes) returns (found: bool)
    ensures found <==> ExecutableText(bytes)
  {
    var cursor := 0;
    assert bytes[0..] == bytes;
    while cursor < |bytes|
      invariant 0 <= cursor <= |bytes|
      invariant ExecutableText(bytes) <==> ExecutableText(bytes[cursor..])
      decreases |bytes| - cursor
    {
      ExecutableAdvances(bytes, cursor);
      match KindOf(bytes[cursor..]) {
        case Semi =>
          cursor := cursor + 1;
        case QuotedText => return true;
        case Point => return true;
        case Word => return true;
        case Else => return true;
        case kind =>
          cursor := SkipTrivia(bytes, cursor, kind);
      }
    }
    assert Tokenise(bytes[cursor..]) == [];
    return false;
  }
}
