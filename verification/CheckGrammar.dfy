/**
 * The closed CHECK grammar over one added column (src/d1_migration_additive.rs):
 * trees, their token text, a specification parser, and the cursor parser.
 */
module CheckGrammar {
  import opened Prelude
  import opened SqlTokens
  import CommaList

  const MAX_CHECK_TOKENS: nat := 96
  const MAX_CHECK_DEPTH: nat := 6
  const MAX_CHECK_IN_VALUES: nat := 16
  const MAX_CHECK_LITERAL_BYTES: nat := 256

  predicate Number(w: Bytes) {
    |w| <= 10 && AllDigits(w)
  }

  predicate PositiveNumber(w: Bytes) {
    Number(w) && exists i :: 0 <= i < |w| && w[i] != 48
  }

  // ---- Trees; keyword spellings are kept so that a tree has exactly one text ----

  datatype Value =
    | ColumnValue(word: Bytes)
    | LengthOf(fn: Bytes, column: Bytes)
    | SubstrOf(fn: Bytes, column: Bytes, from: Bytes, count: Bytes)
    | NumberValue(digits: Bytes)
    | SignedValue(sign: char, digits: Bytes)
    | TextValue(text: Bytes)

  datatype Predicate =
    | Group(inner: Disjunction)
    | IsNull(left: Value, isWord: Bytes, nullWord: Bytes)
    | Equals(left: Value, right: Value)
    | InList(left: Value, inWord: Bytes, values: seq<Value>)

  datatype Conjunction = One(p: Predicate) | And(p: Predicate, word: Bytes, rest: Conjunction)

  datatype Disjunction = Only(c: Conjunction) | Or(c: Conjunction, word: Bytes, rest: Disjunction)

  // ---- The text of a tree ----

  function PrintValue(v: Value): seq<Token> {
    match v
    case ColumnValue(w) => [Word(w)]
    case LengthOf(fn, column) => [Word(fn), Symbol('('), Word(column), Symbol(')')]
    case SubstrOf(fn, column, from, count) =>
      [Word(fn), Symbol('('), Word(column), Symbol(','), Word(from), Symbol(','), Word(count), Symbol(')')]
    case NumberValue(d) => [Word(d)]
    case SignedValue(sign, d) => [Symbol(sign), Word(d)]
    case TextValue(t) => [StringLiteral(t)]
  }

  function PrintValues(vs: seq<Value>): seq<Token> {
    CommaList.Print(PrintValue, vs)
  }

  function PrintPredicate(p: Predicate): seq<Token> {
    match p
    case Group(o) => [Symbol('(')] + PrintDisjunction(o) + [Symbol(')')]
    case IsNull(left, i, n) => PrintValue(left) + [Word(i), Word(n)]
    case Equals(left, right) => PrintValue(left) + ([Symbol('=')] + PrintValue(right))
    case InList(left, i, vs) => PrintValue(left) + PrintInTail(i, vs)
  }

  function PrintInTail(i: Bytes, vs: seq<Value>): seq<Token> {
    [Word(i), Symbol('(')] + (PrintValues(vs) + [Symbol(')')])
  }

  function PrintConjunction(c: Conjunction): seq<Token> {
    match c
    case One(p) => PrintPredicate(p)
    case And(p, w, rest) => PrintPredicate(p) + [Word(w)] + PrintConjunction(rest)
  }

  function PrintDisjunction(o: Disjunction): seq<Token> {
    match o
    case Only(c) => PrintConjunction(c)
    case Or(c, w, rest) => PrintConjunction(c) + [Word(w)] + PrintDisjunction(rest)
  }

  // ---- Which trees the grammar admits ----

  predicate IsLiteral(v: Value) {
    v.NumberValue? || v.SignedValue? || v.TextValue?
  }

  predicate ValueOk(v: Value, column: Bytes) {
    match v
    case ColumnValue(w) => SameWord(w, column)
    case LengthOf(fn, c) => SameWord(fn, Ascii("length")) && SameWord(c, column)
    case SubstrOf(fn, c, from, count) =>
      SameWord(fn, Ascii("substr")) && SameWord(c, column) && PositiveNumber(from) && PositiveNumber(count)
    case NumberValue(d) => Number(d)
    case SignedValue(sign, d) => sign in {'-', '+'} && Number(d)
    case TextValue(t) => |t| <= MAX_CHECK_LITERAL_BYTES
  }

  predicate LiteralOk(v: Value, column: Bytes) {
    IsLiteral(v) && ValueOk(v, column)
  }

  predicate PredicateOk(p: Predicate, depth: nat, column: Bytes) {
    match p
    case Group(o) => DisjunctionOk(o, depth + 1, column)
    case IsNull(left, i, n) =>
      left.ColumnValue? && ValueOk(left, column) && SameWord(i, Ascii("is")) && SameWord(n, Ascii("null"))
    case Equals(left, right) =>
      !IsLiteral(left) && ValueOk(left, column) && IsLiteral(right) && ValueOk(right, column)
    case InList(left, i, vs) =>
      left.ColumnValue? && ValueOk(left, column) && SameWord(i, Ascii("in"))
      && 1 <= |vs| <= MAX_CHECK_IN_VALUES && forall k :: 0 <= k < |vs| ==> LiteralOk(vs[k], column)
  }

  predicate ConjunctionOk(c: Conjunction, depth: nat, column: Bytes) {
    match c
    case One(p) => PredicateOk(p, depth, column)
    case And(p, w, rest) =>
      PredicateOk(p, depth, column) && SameWord(w, Ascii("and")) && ConjunctionOk(rest, depth, column)
  }

  predicate DisjunctionOk(o: Disjunction, depth: nat, column: Bytes) {
    depth <= MAX_CHECK_DEPTH &&
    match o
    case Only(c) => ConjunctionOk(c, depth, column)
    case Or(c, w, rest) =>
      ConjunctionOk(c, depth, column) && SameWord(w, Ascii("or")) && DisjunctionOk(rest, depth, column)
  }

  // ---- Specification parser: a tree and the tokens after it ----

  function ParseValue(ts: seq<Token>, column: Bytes): (r: Option<(Value, seq<Token>)>)
    ensures r.Some? ==> |r.value.1| < |ts|
  {
    if ts == [] then None
    else
      match ts[0]
      case Word(w) =>
        if SameWord(w, Ascii("length")) && StartsWithSymbol(ts[1..], '(') then
          if |ts| >= 4 && IsWord(ts[2], column) && ts[3] == Symbol(')') then Some((LengthOf(w, ts[2].text), ts[4..]))
            else None
        else if SameWord(w, Ascii("substr")) && StartsWithSymbol(ts[1..], '(') then
          if |ts| >= 8 && IsWord(ts[2], column) && ts[3] == Symbol(',') && ts[4].Word? && PositiveNumber(ts[4].text)
             && ts[5] == Symbol(',') && ts[6].Word? && PositiveNumber(ts[6].text) && ts[7] == Symbol(')')
          then Some((SubstrOf(w, ts[2].text, ts[4].text, ts[6].text), ts[8..])) else None
        else if SameWord(w, column) then Some((ColumnValue(w), ts[1..]))
        else if Number(w) then Some((NumberValue(w), ts[1..]))
        else None
      case Symbol(c) =>
        if c in {'-', '+'} && |ts| >= 2 && ts[1].Word? && Number(ts[1].text)
        then Some((SignedValue(c, ts[1].text), ts[2..])) else None
      case StringLiteral(t) => if |t| <= MAX_CHECK_LITERAL_BYTES then Some((TextValue(t), ts[1..])) else None
      case Identifier(_) => None
  }

  function ParseLiteral(ts: seq<Token>, column: Bytes): (r: Option<(Value, seq<Token>)>)
    ensures r.Some? ==> |r.value.1| < |ts|
  {
    match ParseValue(ts, column)
    case None => None
    case Some((v, rest)) => if IsLiteral(v) then Some((v, rest)) else None
  }

  function LiteralItem(column: Bytes): CommaList.Item<Value> {
    ts => ParseLiteral(ts, column)
  }

  function LiteralAllowed(column: Bytes): Value -> bool {
    v => LiteralOk(v, column)
  }

  function ParseLiterals(ts: seq<Token>, column: Bytes): (r: Option<(seq<Value>, seq<Token>)>)
    ensures r.Some? ==> |r.value.1| < |ts|
  {
    CommaList.ListShrinks(LiteralItem(column), ts, MAX_CHECK_IN_VALUES);
    CommaList.Parse(LiteralItem(column), ts, MAX_CHECK_IN_VALUES)
  }

  function ParseTail(left: Value, ts: seq<Token>, column: Bytes): (r: Option<(Predicate, seq<Token>)>)
    ensures r.Some? ==> |r.value.1| < |ts|
  {
    if StartsWithWord(ts, Ascii("is")) then
      if left.ColumnValue? && StartsWithWord(ts[1..], Ascii("null"))
        then Some((IsNull(left, ts[0].text, ts[1].text), ts[2..])) else None
    else if StartsWithSymbol(ts, '=') then
      match ParseValue(ts[1..], column)
      case None => None
      case Some((right, rest)) => if IsLiteral(left) || !IsLiteral(right) then None
        else Some((Equals(left, right), rest))
    else if StartsWithWord(ts, Ascii("in")) then
      if !left.ColumnValue? || !StartsWithSymbol(ts[1..], '(') then None
      else
        match ParseLiterals(ts[2..], column)
        case None => None
        case Some((vs, rest)) =>
          if StartsWithSymbol(rest, ')') then Some((InList(left, ts[0].text, vs), rest[1..])) else None
    else None
  }

  function ParsePredicate(ts: seq<Token>, depth: nat, column: Bytes): (r: Option<(Predicate, seq<Token>)>)
    ensures r.Some? ==> |r.value.1| < |ts|
    decreases |ts|, 0
  {
    if StartsWithSymbol(ts, '(') then
      match ParseDisjunction(ts[1..], depth + 1, column)
      case None => None
      case Some((o, rest)) => if StartsWithSymbol(rest, ')') then Some((Group(o), rest[1..])) else None
    else
      match ParseValue(ts, column)
      case None => None
      case Some((left, rest)) => ParseTail(left, rest, column)
  }

  function ParseConjunction(ts: seq<Token>, depth: nat, column: Bytes): (r: Option<(Conjunction, seq<Token>)>)
    ensures r.Some? ==> |r.value.1| < |ts|
    decreases |ts|, 1
  {
    match ParsePredicate(ts, depth, column)
    case None => None
    case Some((p, rest)) =>
      if !StartsWithWord(rest, Ascii("and")) then Some((One(p), rest))
      else
        match ParseConjunction(rest[1..], depth, column)
        case None => None
        case Some((more, after)) => Some((And(p, rest[0].text, more), after))
  }

  function ParseDisjunction(ts: seq<Token>, depth: nat, column: Bytes): (r: Option<(Disjunction, seq<Token>)>)
    ensures r.Some? ==> |r.value.1| < |ts|
    decreases |ts|, 2
  {
    if depth > MAX_CHECK_DEPTH then None
    else
      match ParseConjunction(ts, depth, column)
      case None => None
      case Some((c, rest)) =>
        if !StartsWithWord(rest, Ascii("or")) then Some((Only(c), rest))
        else
          match ParseDisjunction(rest[1..], depth, column)
          case None => None
          case Some((more, after)) => Some((Or(c, rest[0].text, more), after))
  }

  // ---- Accepted text is the print of an admitted tree ----

  lemma ValueSound(ts: seq<Token>, column: Bytes)
    requires ParseValue(ts, column).Some?
    ensures var (v, rest) := ParseValue(ts, column).value; ts == PrintValue(v) + rest && ValueOk(v, column)
  {
  }

  lemma LiteralsSound(ts: seq<Token>, column: Bytes)
    requires ParseLiterals(ts, column).Some?
    ensures var (vs, rest) := ParseLiterals(ts, column).value;
            ts == PrintValues(vs) + rest && (forall k :: 0 <= k < |vs| ==> LiteralOk(vs[k], column))
                && 1 <= |vs| <= MAX_CHECK_IN_VALUES
  {
    var item, ok := LiteralItem(column), LiteralAllowed(column);
    forall us | item(us).Some? ensures ok(item(us).value.0) && us == PrintValue(item(us).value.0) + item(us).value.1 {
      ValueSound(us, column);
    }
    CommaList.ListSound(item, PrintValue, ok, ts, MAX_CHECK_IN_VALUES);
    var vs := ParseLiterals(ts, column).value.0;
    assert forall k :: 0 <= k < |vs| ==> ok(vs[k]);
  }

  /** The text of an IN list in front of further tokens. */
  lemma InTailThen(i: Bytes, vs: seq<Value>, rest: seq<Token>)
    ensures PrintInTail(i, vs) + rest == [Word(i), Symbol('(')] + (PrintValues(vs) + ([Symbol(')')] + rest))
  {
    Reassociate([Word(i), Symbol('(')], PrintValues(vs) + [Symbol(')')], rest);
    Reassociate(PrintValues(vs), [Symbol(')')], rest);
  }

  /** A left value and the text of an IN list behind it. */
  lemma InListText(left: Value, i: Bytes, vs: seq<Value>, rest: seq<Token>)
    ensures PrintValue(left) + ([Word(i), Symbol('(')] + (PrintValues(vs) + ([Symbol(')')] + rest)))
         == PrintPredicate(InList(left, i, vs)) + rest
  {
    InTailThen(i, vs, rest);
    Reassociate(PrintValue(left), PrintInTail(i, vs), rest);
  }

  lemma EqualsSound(left: Value, ts: seq<Token>, column: Bytes)
    requires StartsWithSymbol(ts, '=') && ParseValue(ts[1..], column).Some?
    ensures var (right, rest) := ParseValue(ts[1..], column).value;
            PrintValue(left) + ts == PrintPredicate(Equals(left, right)) + rest && ValueOk(right, column)
  {
    ValueSound(ts[1..], column);
    var (right, rest) := ParseValue(ts[1..], column).value;
    assert ts == [Symbol('=')] + ts[1..];
    Reassociate(PrintValue(left), [Symbol('=')] + PrintValue(right), rest);
    Reassociate([Symbol('=')], PrintValue(right), rest);
  }

  lemma InListSound(left: Value, ts: seq<Token>, vs: seq<Value>, rest: seq<Token>)
    requires StartsWithWord(ts, Ascii("in")) && StartsWithSymbol(ts[1..], '(') && StartsWithSymbol(rest, ')')
    requires ts[2..] == PrintValues(vs) + rest
    ensures PrintValue(left) + ts == PrintPredicate(InList(left, ts[0].text, vs)) + rest[1..]
  {
    assert rest == [Symbol(')')] + rest[1..];
    assert ts == [Word(ts[0].text), Symbol('(')] + ts[2..];
    InListText(left, ts[0].text, vs, rest[1..]);
  }

  lemma TailSound(left: Value, ts: seq<Token>, depth: nat, column: Bytes)
    requires ValueOk(left, column) && ParseTail(left, ts, column).Some?
    ensures var (p, rest) := ParseTail(left, ts, column).value;
            PrintValue(left) + ts == PrintPredicate(p) + rest && PredicateOk(p, depth, column)
  {
    if StartsWithWord(ts, Ascii("is")) {
      assert ts == [ts[0], ts[1]] + ts[2..];
    } else if StartsWithSymbol(ts, '=') {
      EqualsSound(left, ts, column);
    } else {
      LiteralsSound(ts[2..], column);
      var (vs, rest) := ParseLiterals(ts[2..], column).value;
      InListSound(left, ts, vs, rest);
    }
  }

  lemma {:induction false} PredicateSound(ts: seq<Token>, depth: nat, column: Bytes)
    requires ParsePredicate(ts, depth, column).Some?
    ensures var (p, rest) := ParsePredicate(ts, depth, column).value;
            ts == PrintPredicate(p) + rest && PredicateOk(p, depth, column)
    decreases |ts|, 0
  {
    if StartsWithSymbol(ts, '(') {
      DisjunctionSound(ts[1..], depth + 1, column);
    } else {
      ValueSound(ts, column);
      var (left, rest) := ParseValue(ts, column).value;
      TailSound(left, rest, depth, column);
    }
  }

  lemma {:induction false} ConjunctionSound(ts: seq<Token>, depth: nat, column: Bytes)
    requires ParseConjunction(ts, depth, column).Some?
    ensures var (c, rest) := ParseConjunction(ts, depth, column).value;
            ts == PrintConjunction(c) + rest && ConjunctionOk(c, depth, column)
    decreases |ts|, 1
  {
    PredicateSound(ts, depth, column);
    var (p, rest) := ParsePredicate(ts, depth, column).value;
    if StartsWithWord(rest, Ascii("and")) {
      ConjunctionSound(rest[1..], depth, column);
      var (more, after) := ParseConjunction(rest[1..], depth, column).value;
      Glue(PrintPredicate(p), rest[0], PrintConjunction(more), after);
      assert rest == [rest[0]] + rest[1..];
    }
  }

  lemma {:induction false} DisjunctionSound(ts: seq<Token>, depth: nat, column: Bytes)
    requires ParseDisjunction(ts, depth, column).Some?
    ensures var (o, rest) := ParseDisjunction(ts, depth, column).value;
            ts == PrintDisjunction(o) + rest && DisjunctionOk(o, depth, column)
    decreases |ts|, 2
  {
    ConjunctionSound(ts, depth, column);
    var (c, rest) := ParseConjunction(ts, depth, column).value;
    if StartsWithWord(rest, Ascii("or")) {
      DisjunctionSound(rest[1..], depth, column);
      var (more, after) := ParseDisjunction(rest[1..], depth, column).value;
      Glue(PrintConjunction(c), rest[0], PrintDisjunction(more), after);
      assert rest == [rest[0]] + rest[1..];
    }
  }

  // ---- The print of an admitted tree is accepted, and exactly it is consumed ----

  lemma NumberIsNotColumn(w: Bytes, column: Bytes)
    requires AllDigits(w) && CanonicalIdentifier(column)
    ensures !SameWord(w, column)
  {
    assert |Lower(w)| == |w| && |Lower(column)| == |column|;
    if w != [] { assert Lower(w)[0] != Lower(column)[0]; }
  }

  lemma NumberIsNoFunction(w: Bytes)
    requires AllDigits(w)
    ensures !SameWord(w, Ascii("length")) && !SameWord(w, Ascii("substr"))
  {
    assert |Lower(w)| == |w| && |Lower(Ascii("length"))| == 6 && |Lower(Ascii("substr"))| == 6;
    if w != [] { assert Lower(w)[0] != Lower(Ascii("length"))[0] && Lower(w)[0] != Lower(Ascii("substr"))[0]; }
  }

  lemma FunctionNamesDiffer(w: Bytes)
    ensures !(SameWord(w, Ascii("length")) && SameWord(w, Ascii("substr")))
  {
    assert Lower(Ascii("length"))[0] != Lower(Ascii("substr"))[0];
  }

  lemma ValueComplete(v: Value, rest: seq<Token>, column: Bytes)
    requires CanonicalIdentifier(column) && ValueOk(v, column)
    requires v.ColumnValue? ==> !StartsWithSymbol(rest, '(')
    ensures ParseValue(PrintValue(v) + rest, column) == Some((v, rest))
  {
    var ts := PrintValue(v) + rest;
    assert ts[|PrintValue(v)|..] == rest;
    match v
    case LengthOf(fn, c) => assert ts[1..][0] == Symbol('(');
    case SubstrOf(fn, c, a, b) => FunctionNamesDiffer(fn); assert ts[1..][0] == Symbol('(');
    case ColumnValue(w) => assert ts[1..] == rest;
    case NumberValue(d) => NumberIsNotColumn(d, column); NumberIsNoFunction(d);
    case SignedValue(sign, d) =>
    case TextValue(t) =>
  }

  lemma LiteralsComplete(vs: seq<Value>, rest: seq<Token>, column: Bytes)
    requires CanonicalIdentifier(column) && 1 <= |vs| <= MAX_CHECK_IN_VALUES
    requires forall k :: 0 <= k < |vs| ==> LiteralOk(vs[k], column)
    requires !StartsWithSymbol(rest, ',')
    ensures ParseLiterals(PrintValues(vs) + rest, column) == Some((vs, rest))
  {
    var item, ok := LiteralItem(column), LiteralAllowed(column);
    forall v, more | ok(v) ensures item(PrintValue(v) + more) == Some((v, more)) {
      ValueComplete(v, more, column);
    }
    assert forall k :: 0 <= k < |vs| ==> ok(vs[k]);
    CommaList.ListComplete(item, PrintValue, ok, vs, rest, MAX_CHECK_IN_VALUES);
  }

  lemma KeywordsDiffer(w: Bytes)
    ensures !(SameWord(w, Ascii("is")) && SameWord(w, Ascii("in")))
  {
    assert Lower(Ascii("is"))[1] != Lower(Ascii("in"))[1];
  }

  /** What follows the left value of a comparison. */
  function PrintTail(p: Predicate): seq<Token>
    requires !p.Group?
  {
    match p
    case IsNull(left, i, n) => [Word(i), Word(n)]
    case Equals(left, right) => [Symbol('=')] + PrintValue(right)
    case InList(left, i, vs) => PrintInTail(i, vs)
  }

  lemma IsNullComplete(left: Value, i: Bytes, n: Bytes, rest: seq<Token>, column: Bytes)
    requires left.ColumnValue? && SameWord(i, Ascii("is")) && SameWord(n, Ascii("null"))
    ensures ParseTail(left, [Word(i), Word(n)] + rest, column) == Some((IsNull(left, i, n), rest))
  {
    var ts := [Word(i), Word(n)] + rest;
    assert ts[1..][0] == Word(n) && ts[2..] == rest;
  }

  lemma EqualsComplete(left: Value, right: Value, rest: seq<Token>, column: Bytes)
    requires CanonicalIdentifier(column) && !IsLiteral(left) && IsLiteral(right) && ValueOk(right, column)
    ensures ParseTail(left, [Symbol('=')] + PrintValue(right) + rest, column) == Some((Equals(left, right), rest))
  {
    var ts := [Symbol('=')] + PrintValue(right) + rest;
    assert ts[1..] == PrintValue(right) + rest;
    ValueComplete(right, rest, column);
  }

  lemma InListComplete(left: Value, i: Bytes, vs: seq<Value>, rest: seq<Token>, column: Bytes)
    requires CanonicalIdentifier(column) && left.ColumnValue? && SameWord(i, Ascii("in"))
    requires 1 <= |vs| <= MAX_CHECK_IN_VALUES && forall k :: 0 <= k < |vs| ==> LiteralOk(vs[k], column)
    ensures ParseTail(left, PrintInTail(i, vs) + rest, column) == Some((InList(left, i, vs), rest))
  {
    var close := [Symbol(')')] + rest;
    var inner := PrintValues(vs) + close;
    var ts := [Word(i), Symbol('(')] + inner;
    InTailThen(i, vs, rest);
    assert ts[0] == Word(i) && ts[1..][0] == Symbol('(') && ts[2..] == inner;
    KeywordsDiffer(i);
    LiteralsComplete(vs, close, column);
    assert close[1..] == rest;
  }

  lemma TailComplete(p: Predicate, rest: seq<Token>, depth: nat, column: Bytes)
    requires CanonicalIdentifier(column) && PredicateOk(p, depth, column) && !p.Group?
    ensures ParseTail(p.left, PrintTail(p) + rest, column) == Some((p, rest))
    ensures !StartsWithSymbol(PrintTail(p) + rest, '(')
  {
    match p
    case IsNull(left, i, n) => IsNullComplete(left, i, n, rest, column);
    case Equals(left, right) => EqualsComplete(left, right, rest, column);
    case InList(left, i, vs) => InListComplete(left, i, vs, rest, column);
  }

  /** A value never opens with a parenthesis. */
  lemma ValueOpens(v: Value, rest: seq<Token>, column: Bytes)
    requires ValueOk(v, column)
    ensures !StartsWithSymbol(PrintValue(v) + rest, '(')
  {
  }

  lemma {:induction false} PredicateComplete(p: Predicate, rest: seq<Token>, depth: nat, column: Bytes)
    requires CanonicalIdentifier(column) && PredicateOk(p, depth, column)
    ensures ParsePredicate(PrintPredicate(p) + rest, depth, column) == Some((p, rest))
    decreases p
  {
    var ts := PrintPredicate(p) + rest;
    if p.Group? {
      var close := [Symbol(')')] + rest;
      assert ts[1..] == PrintDisjunction(p.inner) + close && close[1..] == rest;
      DisjunctionComplete(p.inner, close, depth + 1, column);
    } else {
      var tail := PrintTail(p) + rest;
      assert ts == PrintValue(p.left) + tail;
      TailComplete(p, rest, depth, column);
      ValueOpens(p.left, tail, column);
      ValueComplete(p.left, tail, column);
    }
  }

  lemma {:induction false} ConjunctionComplete(c: Conjunction, rest: seq<Token>, depth: nat, column: Bytes)
    requires CanonicalIdentifier(column) && ConjunctionOk(c, depth, column)
    requires !StartsWithWord(rest, Ascii("and"))
    ensures ParseConjunction(PrintConjunction(c) + rest, depth, column) == Some((c, rest))
    decreases c
  {
    match c
    case One(p) => PredicateComplete(p, rest, depth, column);
    case And(p, w, more) =>
      var after := [Word(w)] + (PrintConjunction(more) + rest);
      assert PrintConjunction(c) + rest == PrintPredicate(p) + after;
      PredicateComplete(p, after, depth, column);
      assert after[1..] == PrintConjunction(more) + rest;
      ConjunctionComplete(more, rest, depth, column);
  }

  lemma {:induction false} DisjunctionComplete(o: Disjunction, rest: seq<Token>, depth: nat, column: Bytes)
    requires CanonicalIdentifier(column) && DisjunctionOk(o, depth, column)
    requires !StartsWithWord(rest, Ascii("and")) && !StartsWithWord(rest, Ascii("or"))
    ensures ParseDisjunction(PrintDisjunction(o) + rest, depth, column) == Some((o, rest))
    decreases o
  {
    match o
    case Only(c) => ConjunctionComplete(c, rest, depth, column);
    case Or(c, w, more) =>
      var after := [Word(w)] + (PrintDisjunction(more) + rest);
      assert PrintDisjunction(o) + rest == PrintConjunction(c) + after;
      assert Lower(Ascii("or"))[0] != Lower(Ascii("and"))[0];
      ConjunctionComplete(c, after, depth, column);
      assert after[1..] == PrintDisjunction(more) + rest;
      DisjunctionComplete(more, rest, depth, column);
  }

  // ---- The cursor parser ----

  lemma LengthAt(ts: seq<Token>, column: Bytes)
    requires StartsWithWord(ts, Ascii("length")) && StartsWithSymbol(ts[1..], '(')
    ensures ParseValue(ts, column) == if |ts| >= 4 && IsWord(ts[2], column) && ts[3] == Symbol(')')
                                      then Some((LengthOf(ts[0].text, ts[2].text), ts[4..])) else None
  {
  }

  lemma SubstrAt(ts: seq<Token>, column: Bytes)
    requires StartsWithWord(ts, Ascii("substr")) && StartsWithSymbol(ts[1..], '(')
    ensures ParseValue(ts, column) ==
            if |ts| >= 8 && IsWord(ts[2], column) && ts[3] == Symbol(',') && ts[4].Word? && PositiveNumber(ts[4].text)
               && ts[5] == Symbol(',') && ts[6].Word? && PositiveNumber(ts[6].text) && ts[7] == Symbol(')')
            then Some((SubstrOf(ts[0].text, ts[2].text, ts[4].text, ts[6].text), ts[8..])) else None
  {
    FunctionNamesDiffer(ts[0].text);
  }

  datatype CheckValueKind = ColumnKind | ColumnDerived | Literal

  function KindOf(v: Value): CheckValueKind {
    match v
    case ColumnValue(_) => ColumnKind
    case LengthOf(_, _) => ColumnDerived
    case SubstrOf(_, _, _, _) => ColumnDerived
    case _ => Literal
  }

  /** Only the tokens left over, as the cursor parser knows them. */
  function PredicateRest(ts: seq<Token>, depth: nat, column: Bytes): Option<seq<Token>> {
    match ParsePredicate(ts, depth, column) case None => None case Some((_, rest)) => Some(rest)
  }

  function ConjunctionRest(ts: seq<Token>, depth: nat, column: Bytes): Option<seq<Token>> {
    match ParseConjunction(ts, depth, column) case None => None case Some((_, rest)) => Some(rest)
  }

  function DisjunctionRest(ts: seq<Token>, depth: nat, column: Bytes): Option<seq<Token>> {
    match ParseDisjunction(ts, depth, column) case None => None case Some((_, rest)) => Some(rest)
  }

  /** What is left of a conjunction once one of its predicates has been read. */
  function MoreConjunction(rest: seq<Token>, depth: nat, column: Bytes): Option<seq<Token>> {
    if StartsWithWord(rest, Ascii("and")) then ConjunctionRest(rest[1..], depth, column) else Some(rest)
  }

  function MoreDisjunction(rest: seq<Token>, depth: nat, column: Bytes): Option<seq<Token>> {
    if StartsWithWord(rest, Ascii("or")) then DisjunctionRest(rest[1..], depth, column) else Some(rest)
  }

  lemma ConjunctionRestUnfolds(ts: seq<Token>, depth: nat, column: Bytes)
    ensures ConjunctionRest(ts, depth, column) ==
            match PredicateRest(ts, depth, column)
            case None => None
            case Some(rest) => MoreConjunction(rest, depth, column)
  {
  }

  lemma DisjunctionRestUnfolds(ts: seq<Token>, depth: nat, column: Bytes)
    ensures DisjunctionRest(ts, depth, column) ==
            if depth > MAX_CHECK_DEPTH then None
            else
              match ConjunctionRest(ts, depth, column)
              case None => None
              case Some(rest) => MoreDisjunction(rest, depth, column)
  {
  }

  class CheckExpressionParser {
    const tokens: seq<Token>
    const column: Bytes
    var cursor: nat

    constructor (tokens: seq<Token>, cursor: nat, column: Bytes)
      requires cursor <= |tokens|
      ensures this.tokens == tokens && this.column == column && this.cursor == cursor
    {
      this.tokens, this.column, this.cursor := tokens, column, cursor;
    }

    /** The tokens not consumed yet. */
    function Remaining(): seq<Token>
      reads this
      requires cursor <= |tokens|
    {
      tokens[cursor..]
    }

    method ConsumeSymbol(c: char) returns (ok: bool)
      requires cursor <= |tokens|
      modifies this
      ensures ok <==> StartsWithSymbol(old(Remaining()), c)
      ensures cursor == old(cursor) + (if ok then 1 else 0) <= |tokens|
      ensures Remaining() == (if ok then old(Remaining())[1..] else old(Remaining()))
    {
      ok := cursor < |tokens| && tokens[cursor] == Symbol(c);
      if ok { cursor := cursor + 1; }
    }

    method ConsumeWord(expected: Bytes) returns (ok: bool)
      requires cursor <= |tokens|
      modifies this
      ensures ok <==> StartsWithWord(old(Remaining()), expected)
      ensures cursor == old(cursor) + (if ok then 1 else 0) <= |tokens|
      ensures Remaining() == (if ok then old(Remaining())[1..] else old(Remaining()))
    {
      ok := cursor < |tokens| && IsWord(tokens[cursor], expected);
      if ok { cursor := cursor + 1; }
    }

    method ConsumePositiveInteger() returns (ok: bool)
      requires cursor <= |tokens|
      modifies this
      ensures ok <==> |old(Remaining())| > 0 && old(Remaining())[0].Word? && PositiveNumber(old(Remaining())[0].text)
      ensures cursor == old(cursor) + (if ok then 1 else 0) <= |tokens|
      ensures Remaining() == (if ok then old(Remaining())[1..] else old(Remaining()))
    {
      ok := cursor < |tokens| && tokens[cursor].Word? && PositiveNumber(tokens[cursor].text);
      if ok { cursor := cursor + 1; }
    }

    /** After the opening parenthesis of `length(` or `substr(`. */
    method ParseArguments(substr: bool) returns (ok: bool)
      requires cursor <= |tokens|
      modifies this
      ensures cursor <= |tokens|
      ensures var ts := old(Remaining());
              if substr then
                && (ok <==>
                      && |ts| >= 6 && IsWord(ts[0], column)
                      && ts[1] == Symbol(',') && ts[2].Word? && PositiveNumber(ts[2].text)
                      && ts[3] == Symbol(',') && ts[4].Word? && PositiveNumber(ts[4].text) && ts[5] == Symbol(')'))
                && (ok ==> Remaining() == ts[6..])
              else
                && (ok <==> |ts| >= 2 && IsWord(ts[0], column) && ts[1] == Symbol(')'))
                && (ok ==> Remaining() == ts[2..])
    {
      ok := ConsumeWord(column);
      if ok && substr {
        ok := ConsumeSymbol(',');
        if ok { ok := ConsumePositiveInteger(); }
        if ok { ok := ConsumeSymbol(','); }
        if ok { ok := ConsumePositiveInteger(); }
      }
      if ok { ok := ConsumeSymbol(')'); }
    }

    method ParseValueAt() returns (r: Option<CheckValueKind>)
      requires cursor <= |tokens|
      modifies this
      ensures cursor <= |tokens|
      ensures var p := ParseValue(old(Remaining()), column);
              && (r.Some? <==> p.Some?)
              && (r.Some? ==> r.value == KindOf(p.value.0) && Remaining() == p.value.1)
    {
      if cursor == |tokens| { return None; }
      ghost var ts := Remaining();
      var next := cursor + 1 < |tokens| && tokens[cursor + 1] == Symbol('(');
      match tokens[cursor] {
        case Word(w) =>
          if next && SameWord(w, Ascii("length")) {
            cursor := cursor + 2;
            assert Remaining() == ts[2..];
            var ok := ParseArguments(false);
            LengthAt(ts, column);
            assert |ts| >= 4 ==> ts[2..][0] == ts[2] && ts[2..][1] == ts[3] && ts[2..][2..] == ts[4..];
            assert ok <==> ParseValue(ts, column).Some?;
            return if ok then Some(ColumnDerived) else None;
          } else if next && SameWord(w, Ascii("substr")) {
            cursor := cursor + 2;
            assert Remaining() == ts[2..];
            var ok := ParseArguments(true);
            SubstrAt(ts, column);
            assert |ts| >= 8 ==> ts[2..][6..] == ts[8..] && forall k :: 0 <= k < 6 ==> ts[2..][k] == ts[k + 2];
            assert ok <==> ParseValue(ts, column).Some?;
            return if ok then Some(ColumnDerived) else None;
          } else if SameWord(w, column) {
            cursor := cursor + 1;
            return Some(ColumnKind);
          } else if Number(w) {
            cursor := cursor + 1;
            return Some(Literal);
          }
          return None;
        case Symbol(c) =>
          if c in {'-', '+'} && cursor + 1 < |tokens| && tokens[cursor + 1].Word? && Number(tokens[cursor + 1].text) {
            cursor := cursor + 2;
            return Some(Literal);
          }
          return None;
        case StringLiteral(t) =>
          if |t| <= MAX_CHECK_LITERAL_BYTES {
            cursor := cursor + 1;
            return Some(Literal);
          }
          return None;
        case Identifier(_) =>
          return None;
      }
    }

    /** The values of an IN list, up to the closing parenthesis. */
    method ParseInValues(limit: nat) returns (ok: bool)
      requires cursor <= |tokens|
      modifies this
      ensures cursor <= |tokens|
      ensures var rest := CommaList.Rest(CommaList.Parse(LiteralItem(column), old(Remaining()), limit));
              && (ok <==> rest.Some?)
              && (ok ==> Remaining() == rest.value)
    {
      hide ParseValue;
      ghost var whole := CommaList.Rest(CommaList.Parse(LiteralItem(column), Remaining(), limit));
      var values := 0;
      while true
        invariant cursor <= |tokens| && values <= limit
        invariant whole == CommaList.Rest(CommaList.Parse(LiteralItem(column), Remaining(), limit - values))
        decreases limit - values
      {
        CommaList.RestUnfolds(LiteralItem(column), Remaining(), limit - values);
        var value := ParseValueAt();
        if value != Some(Literal) {
          return false;
        }
        values := values + 1;
        if values > limit {
          return false;
        }
        var comma := ConsumeSymbol(',');
        if !comma {
          return true;
        }
      }
    }

    /** The part of a comparison after its left value. */
    method ParseComparison(left: CheckValueKind, ghost value: Value) returns (ok: bool)
      requires cursor <= |tokens| && left == KindOf(value)
      modifies this
      ensures cursor <= |tokens|
      ensures var p := ParseTail(value, old(Remaining()), column);
              && (ok <==> p.Some?)
              && (ok ==> Remaining() == p.value.1)
    {
      var isNull := ConsumeWord(Ascii("is"));
      if isNull {
        if left != ColumnKind {
          return false;
        }
        ok := ConsumeWord(Ascii("null"));
        return;
      }
      var equals := ConsumeSymbol('=');
      if equals {
        if left == Literal {
          return false;
        }
        var right := ParseValueAt();
        return right == Some(Literal);
      }
      var inList := ConsumeWord(Ascii("in"));
      if inList {
        if left != ColumnKind {
          return false;
        }
        ok := ConsumeSymbol('(');
        if ok { ok := ParseInValues(MAX_CHECK_IN_VALUES); }
        if ok { ok := ConsumeSymbol(')'); }
        return;
      }
      return false;
    }

    method ParsePredicateAt(depth: nat) returns (ok: bool)
      requires cursor <= |tokens|
      modifies this
      ensures cursor <= |tokens|
      ensures var rest := PredicateRest(old(Remaining()), depth, column);
              && (ok <==> rest.Some?)
              && (ok ==> Remaining() == rest.value)
      decreases |tokens| - cursor, 0
    {
      var open := ConsumeSymbol('(');
      if open {
        ok := ParseOrExpression(depth + 1);
        if ok { ok := ConsumeSymbol(')'); }
        return;
      }
      ghost var value := ParseValue(Remaining(), column);
      var left := ParseValueAt();
      if left.None? {
        return false;
      }
      ok := ParseComparison(left.value, value.value.0);
    }

    method ParseAndExpression(depth: nat) returns (ok: bool)
      requires cursor <= |tokens|
      modifies this
      ensures cursor <= |tokens|
      ensures var rest := ConjunctionRest(old(Remaining()), depth, column);
              && (ok <==> rest.Some?)
              && (ok ==> Remaining() == rest.value)
      decreases |tokens| - cursor, 1
    {
      ghost var whole := ConjunctionRest(Remaining(), depth, column);
      ConjunctionRestUnfolds(Remaining(), depth, column);
      ok := ParsePredicateAt(depth);
      if !ok {
        return;
      }
      while true
        invariant old(cursor) < cursor <= |tokens|
        invariant whole == MoreConjunction(Remaining(), depth, column)
        decreases |tokens| - cursor
      {
        var more := ConsumeWord(Ascii("and"));
        if !more {
          return true;
        }
        ConjunctionRestUnfolds(Remaining(), depth, column);
        ok := ParsePredicateAt(depth);
        if !ok {
          return;
        }
      }
    }

    method ParseOrExpression(depth: nat) returns (ok: bool)
      requires cursor <= |tokens|
      modifies this
      ensures cursor <= |tokens|
      ensures var rest := DisjunctionRest(old(Remaining()), depth, column);
              && (ok <==> rest.Some?)
              && (ok ==> Remaining() == rest.value)
      decreases |tokens| - cursor, 2
    {
      ghost var whole := DisjunctionRest(Remaining(), depth, column);
      DisjunctionRestUnfolds(Remaining(), depth, column);
      if depth > MAX_CHECK_DEPTH {
        return false;
      }
      ok := ParseAndExpression(depth);
      if !ok {
        return;
      }
      while true
        invariant old(cursor) < cursor <= |tokens|
        invariant whole == MoreDisjunction(Remaining(), depth, column)
        decreases |tokens| - cursor
      {
        var more := ConsumeWord(Ascii("or"));
        if !more {
          return true;
        }
        DisjunctionRestUnfolds(Remaining(), depth, column);
        ok := ParseAndExpression(depth);
        if !ok {
          return;
        }
      }
    }
  }

  // ---- A whole CHECK constraint ----

  /** The text of a constraint after the word CHECK. */
  function PrintCheck(o: Disjunction): seq<Token> {
    [Symbol('(')] + PrintDisjunction(o) + [Symbol(')')]
  }

  /** Some admitted tree is written at `cursor`, and the text ends at `end`. */
  ghost predicate CheckWritten(tokens: seq<Token>, cursor: nat, column: Bytes, end: nat)
    requires cursor <= |tokens|
  {
    exists o :: DisjunctionOk(o, 1, column) && end == cursor + |PrintCheck(o)| <= |tokens|
        && PrintCheck(o) == tokens[cursor..end]
  }

  function CheckRest(ts: seq<Token>, column: Bytes): Option<seq<Token>> {
    if !StartsWithSymbol(ts, '(') then None
    else
      match DisjunctionRest(ts[1..], 1, column)
      case None => None
      case Some(rest) => if StartsWithSymbol(rest, ')') then Some(rest[1..]) else None
  }

  lemma CheckRestSound(tokens: seq<Token>, cursor: nat, column: Bytes)
    requires cursor <= |tokens| && CheckRest(tokens[cursor..], column).Some?
    ensures |CheckRest(tokens[cursor..], column).value| <= |tokens|
    ensures CheckWritten(tokens, cursor, column, |tokens| - |CheckRest(tokens[cursor..], column).value|)
  {
    var ts := tokens[cursor..];
    DisjunctionSound(ts[1..], 1, column);
    var (o, rest) := ParseDisjunction(ts[1..], 1, column).value;
    assert rest == [Symbol(')')] + rest[1..] && ts == [Symbol('(')] + ts[1..];
    assert ts == PrintCheck(o) + rest[1..];
    var end := cursor + |PrintCheck(o)|;
    assert tokens[cursor..end] == ts[..|PrintCheck(o)|];
  }

  lemma CheckRestComplete(tokens: seq<Token>, cursor: nat, column: Bytes, end: nat)
    requires cursor <= |tokens| && CanonicalIdentifier(column) && CheckWritten(tokens, cursor, column, end)
    ensures CheckRest(tokens[cursor..], column) == Some(tokens[end..])
  {
    var o :| DisjunctionOk(o, 1, column) && end == cursor + |PrintCheck(o)| <= |tokens|
        && PrintCheck(o) == tokens[cursor..end];
    var ts, close := tokens[cursor..], [Symbol(')')] + tokens[end..];
    assert ts == PrintCheck(o) + tokens[end..];
    assert ts[1..] == PrintDisjunction(o) + close && close[1..] == tokens[end..];
    DisjunctionComplete(o, close, 1, column);
  }

  /**
   * A constraint is accepted exactly when an admitted tree is written there, and the cursor moves over exactly its
   * text.
   */
  method ParseCheckConstraint(tokens: seq<Token>, cursor: nat, column: Bytes) returns (r: Option<nat>)
    requires CanonicalIdentifier(column)
    ensures r.Some? ==>
      && cursor <= |tokens| && 1 <= |tokens| - cursor <= MAX_CHECK_TOKENS
      && CheckWritten(tokens, cursor, column, r.value)
    ensures cursor < |tokens| <= cursor + MAX_CHECK_TOKENS ==>
      forall end: nat :: CheckWritten(tokens, cursor, column, end) ==> r == Some(end)
  {
    if cursor > |tokens| || cursor == |tokens| || |tokens| - cursor > MAX_CHECK_TOKENS {
      return None;
    }
    ghost var ts := tokens[cursor..];
    forall end: nat | CheckWritten(tokens, cursor, column, end)
      ensures end <= |tokens| && CheckRest(ts, column) == Some(tokens[end..])
    {
      CheckRestComplete(tokens, cursor, column, end);
    }
    var parser := new CheckExpressionParser(tokens, cursor, column);
    var ok := parser.ConsumeSymbol('(');
    if ok { ok := parser.ParseOrExpression(1); }
    if ok { ok := parser.ConsumeSymbol(')'); }
    assert ok <==> CheckRest(ts, column).Some?;
    if !ok {
      return None;
    }
    CheckRestSound(tokens, cursor, column);
    return Some(parser.cursor);
  }
}
