/**
 * ALTER TABLE ... ADD COLUMN as the additive assertion accepts it
 * (src/d1_migration_additive.rs): exactly the texts of admitted definitions.
 */
module AddColumn {
  import opened Prelude
  import opened SqlTokens
  import opened CheckGrammar

  datatype Column = Column(
    cid: i64,
    name: Bytes,
    declaredType: Bytes,
    notNull: bool,
    default: Option<Bytes>,
    primaryKeyPosition: i64,
    hidden: i64)

  datatype Effect = Effect(table: Bytes, column: Column)

  datatype Statement = AddColumnStatement(effect: Effect) | ForeignKeysOn

  datatype Refusal = AlterGrammar | PragmaGrammar

  // ---- Definitions and their text ----

  datatype Default =
    | NullDefault(word: Bytes)
    | DigitsDefault(digits: Bytes)
    | TextDefault(text: Bytes)
    | SignedDefault(sign: char, digits: Bytes)

  datatype Definition = Definition(
    words: (Bytes, Bytes, Bytes),
    table: Bytes,
    columnWord: Option<Bytes>,
    column: Bytes,
    declaredType: Bytes,
    notNull: Option<(Bytes, Bytes)>,
    default: Option<(Bytes, Default)>,
    check: Option<(Bytes, Disjunction)>)

  function PrintDefault(d: Default): seq<Token> {
    match d
    case NullDefault(w) => [Word(w)]
    case DigitsDefault(d) => [Word(d)]
    case TextDefault(t) => [StringLiteral(t)]
    case SignedDefault(sign, d) => [Symbol(sign), Word(d)]
  }

  function PrintHead(d: Definition): seq<Token> {
    [Word(d.words.0), Word(d.words.1), Word(d.table), Word(d.words.2)]
    + (match d.columnWord case None => [] case Some(w) => [Word(w)])
    + [Word(d.column), Word(d.declaredType)]
  }

  function PrintNotNull(n: Option<(Bytes, Bytes)>): seq<Token> {
    match n case None => [] case Some((a, b)) => [Word(a), Word(b)]
  }

  function PrintDefaultClause(c: Option<(Bytes, Default)>): seq<Token> {
    match c case None => [] case Some((w, d)) => [Word(w)] + PrintDefault(d)
  }

  function PrintCheckClause(c: Option<(Bytes, Disjunction)>): seq<Token> {
    match c case None => [] case Some((w, o)) => [Word(w)] + PrintCheck(o)
  }

  function PrintDefinition(d: Definition): seq<Token> {
    PrintHead(d) + (PrintNotNull(d.notNull) + (PrintDefaultClause(d.default) + PrintCheckClause(d.check)))
  }

  // ---- Which definitions are admitted ----

  const RESERVED_TYPE_WORDS: seq<string> :=
    ["add", "alter", "as", "check", "collate", "constraint", "default", "generated",
     "not", "null", "primary", "references", "unique"]

  predicate CanonicalTypeWord(w: Bytes) {
    CanonicalIdentifier(w) && forall i :: 0 <= i < |RESERVED_TYPE_WORDS| ==> !SameWord(w, Ascii(RESERVED_TYPE_WORDS[i]))
  }

  predicate HeadOk(d: Definition) {
    && SameWord(d.words.0, Ascii("alter")) && SameWord(d.words.1, Ascii("table")) && SameWord(d.words.2, Ascii("add"))
    && CanonicalIdentifier(d.table) && CanonicalIdentifier(d.column) && CanonicalTypeWord(d.declaredType)
    && match d.columnWord
       case Some(w) => SameWord(w, Ascii("column"))
       case None => !SameWord(d.column, Ascii("column"))
  }

  predicate NotNullOk(n: Option<(Bytes, Bytes)>) {
    match n case None => true case Some((a, b)) => SameWord(a, Ascii("not")) && SameWord(b, Ascii("null"))
  }

  predicate DefaultOk(d: Default) {
    match d
    case NullDefault(w) => SameWord(w, Ascii("null"))
    case DigitsDefault(d) => AllDigits(d)
    case TextDefault(_) => true
    case SignedDefault(sign, d) => sign in {'-', '+'} && AllDigits(d)
  }

  predicate DefaultClauseOk(c: Option<(Bytes, Default)>) {
    match c case None => true case Some((w, d)) => SameWord(w, Ascii("default")) && DefaultOk(d)
  }

  predicate CheckClauseOk(c: Option<(Bytes, Disjunction)>, column: Bytes) {
    match c
    case None => true
    case Some((w, o)) =>
      SameWord(w, Ascii("check")) && DisjunctionOk(o, 1, column) && |PrintCheck(o)| <= MAX_CHECK_TOKENS
  }

  predicate DefinitionOk(d: Definition) {
    && HeadOk(d) && NotNullOk(d.notNull) && DefaultClauseOk(d.default) && CheckClauseOk(d.check, d.column)
    && !(d.notNull.Some? && d.default.Some? && d.default.value.1.NullDefault?)
  }

  // ---- What a definition means ----

  function Quote(text: Bytes): Bytes {
    [39] + Doubled(text) + [39]
  }

  function Doubled(text: Bytes): Bytes {
    if text == [] then [] else (if text[0] == 39 then [39, 39] else [text[0]]) + Doubled(text[1..])
  }

  function SignByte(sign: char): byte {
    if sign == '-' then 45 else 43
  }

  function DefaultValue(d: Default): Bytes {
    match d
    case NullDefault(_) => Ascii("NULL")
    case DigitsDefault(d) => d
    case TextDefault(t) => Quote(t)
    case SignedDefault(sign, d) => [SignByte(sign)] + d
  }

  function DeclaredType(w: Bytes): Bytes {
    if SameWord(w, Ascii("integer")) || SameWord(w, Ascii("text")) || SameWord(w, Ascii("real"))
        || SameWord(w, Ascii("blob"))
    then Upper(w) else w
  }

  function DefaultOf(d: Definition): Option<Bytes> {
    match d.default case None => None case Some((_, v)) => Some(DefaultValue(v))
  }

  function EffectOf(d: Definition): Effect {
    Effect(d.table, Column(-1, d.column, DeclaredType(d.declaredType), d.notNull.Some?, DefaultOf(d), 0, 0))
  }

  // ---- Specification parser, clause by clause ----

  function ParseHead(ts: seq<Token>): (r: Option<(Definition, nat)>)
    ensures r.Some? ==> r.value.1 <= |ts|
  {
    if !(|ts| > 4 && IsWord(ts[0], Ascii("alter")) && IsWord(ts[1], Ascii("table")) && ts[2].Word?
         && CanonicalIdentifier(ts[2].text)
         && IsWord(ts[3], Ascii("add"))) then None
    else
      var at := if IsWord(ts[4], Ascii("column")) then 5 else 4;
      if !(|ts| > at + 1 && ts[at].Word? && CanonicalIdentifier(ts[at].text) && ts[at + 1].Word?
           && CanonicalTypeWord(ts[at + 1].text))
      then None
      else Some((Definition((ts[0].text, ts[1].text, ts[3].text), ts[2].text, if at == 5 then Some(ts[4].text)
                            else None,
                            ts[at].text, ts[at + 1].text, None, None, None), at + 2))
  }

  function ParseNotNull(ts: seq<Token>): (Option<(Bytes, Bytes)>, seq<Token>) {
    if |ts| >= 2 && IsWord(ts[0], Ascii("not")) && IsWord(ts[1], Ascii("null"))
      then (Some((ts[0].text, ts[1].text)), ts[2..])
    else (None, ts)
  }

  function ParseDefault(ts: seq<Token>): Option<(Default, seq<Token>)> {
    if ts == [] then None
    else
      match ts[0]
      case Word(w) =>
        if SameWord(w, Ascii("null")) then Some((NullDefault(w), ts[1..]))
        else if AllDigits(w) then Some((DigitsDefault(w), ts[1..])) else None
      case StringLiteral(t) => Some((TextDefault(t), ts[1..]))
      case Symbol(c) =>
        if c in {'-', '+'} && |ts| >= 2 && ts[1].Word? && AllDigits(ts[1].text)
          then Some((SignedDefault(c, ts[1].text), ts[2..]))
        else None
      case Identifier(_) => None
  }

  function ParseDefaultClause(ts: seq<Token>): Option<(Option<(Bytes, Default)>, seq<Token>)> {
    if !StartsWithWord(ts, Ascii("default")) then Some((None, ts))
    else
      match ParseDefault(ts[1..])
      case None => None
      case Some((d, rest)) => Some((Some((ts[0].text, d)), rest))
  }

  lemma HeadSound(ts: seq<Token>)
    requires ParseHead(ts).Some?
    ensures var (d, at) := ParseHead(ts).value; ts == PrintHead(d) + ts[at..] && HeadOk(d)
  {
  }

  lemma HeadComplete(d: Definition, rest: seq<Token>)
    requires HeadOk(d)
    ensures ParseHead(PrintHead(d) + rest)
         == Some((d.(notNull := None, default := None, check := None), |PrintHead(d)|))
  {
  }

  lemma NotNullSound(ts: seq<Token>)
    ensures var (n, rest) := ParseNotNull(ts); ts == PrintNotNull(n) + rest && NotNullOk(n)
  {
  }

  lemma NotNullComplete(n: Option<(Bytes, Bytes)>, rest: seq<Token>)
    requires NotNullOk(n) && !StartsWithWord(rest, Ascii("not"))
    ensures ParseNotNull(PrintNotNull(n) + rest) == (n, rest)
  {
    if n.None? { assert PrintNotNull(n) + rest == rest; }
  }

  lemma DefaultClauseSound(ts: seq<Token>)
    requires ParseDefaultClause(ts).Some?
    ensures var (c, rest) := ParseDefaultClause(ts).value; ts == PrintDefaultClause(c) + rest && DefaultClauseOk(c)
  {
  }

  lemma DefaultClauseComplete(c: Option<(Bytes, Default)>, rest: seq<Token>)
    requires DefaultClauseOk(c) && !StartsWithWord(rest, Ascii("default"))
    ensures ParseDefaultClause(PrintDefaultClause(c) + rest) == Some((c, rest))
  {
    if c.None? {
      assert PrintDefaultClause(c) + rest == rest;
    } else {
      var ts := PrintDefaultClause(c) + rest;
      assert ts[1..] == PrintDefault(c.value.1) + rest;
      DefaultComplete(c.value.1, rest);
    }
  }

  lemma DefaultComplete(d: Default, rest: seq<Token>)
    requires DefaultOk(d)
    ensures ParseDefault(PrintDefault(d) + rest) == Some((d, rest))
  {
    var ts := PrintDefault(d) + rest;
    assert ts[|PrintDefault(d)|..] == rest;
    if d.DigitsDefault? {
      assert Lower(Ascii("null"))[0] == 110 && (d.digits != [] ==> Lower(d.digits)[0] < 58);
      assert |Lower(d.digits)| == |d.digits|;
    }
  }

  /** Every clause of an admitted definition is read back, in order. */
  lemma DefinitionComplete(d: Definition)
    requires DefinitionOk(d)
    ensures ParseHead(PrintDefinition(d)) == Some((d.(notNull := None, default := None, check := None), |PrintHead(d)|))
    ensures var rest := PrintDefaultClause(d.default) + PrintCheckClause(d.check);
            && ParseNotNull(PrintDefinition(d)[|PrintHead(d)|..]) == (d.notNull, rest)
            && ParseDefaultClause(rest) == Some((d.default, PrintCheckClause(d.check)))
  {
    var check := PrintCheckClause(d.check);
    var rest := PrintDefaultClause(d.default) + check;
    HeadComplete(d, PrintNotNull(d.notNull) + rest);
    assert PrintDefinition(d)[|PrintHead(d)|..] == PrintNotNull(d.notNull) + rest;
    ClauseWordsDiffer();
    NotNullComplete(d.notNull, rest);
    DefaultClauseComplete(d.default, check);
  }

  lemma ClauseWordsDiffer()
    ensures forall w :: !(SameWord(w, Ascii("not")) && SameWord(w, Ascii("default")))
    ensures forall w :: !(SameWord(w, Ascii("not")) && SameWord(w, Ascii("check")))
    ensures forall w :: !(SameWord(w, Ascii("default")) && SameWord(w, Ascii("check")))
  {
    assert Lower(Ascii("not"))[0] == 110 && Lower(Ascii("default"))[0] == 100 && Lower(Ascii("check"))[0] == 99;
  }

  ghost predicate Reads(tokens: seq<Token>, effect: Effect) {
    exists d :: DefinitionOk(d) && tokens == PrintDefinition(d) && effect == EffectOf(d)
  }

  /** The CHECK clause, if there is one, up to the end of the statement. */
  method ParseCheckClause(tokens: seq<Token>, start: nat, column: Bytes) returns (ok: bool)
    requires start <= |tokens| && CanonicalIdentifier(column)
    ensures ok <==> exists c :: CheckClauseOk(c, column) && PrintCheckClause(c) == tokens[start..]
  {
    var cursor := start;
    if StartsWithWord(tokens[start..], Ascii("check")) {
      var parsed := ParseCheckConstraint(tokens, start + 1, column);
      forall c | CheckClauseOk(c, column) && PrintCheckClause(c) == tokens[start..] ensures parsed == Some(|tokens|) {
        assert PrintCheck(c.value.1) == tokens[start..][1..] == tokens[start + 1..] == tokens[start + 1..|tokens|];
        assert CheckWritten(tokens, start + 1, column, |tokens|);
      }
      if parsed.None? {
        return false;
      }
      cursor := parsed.value;
      if cursor == |tokens| {
        var o :| DisjunctionOk(o, 1, column) && PrintCheck(o) == tokens[start + 1..|tokens|];
        assert tokens[start..] == [tokens[start]] + tokens[start + 1..];
        assert CheckClauseOk(Some((tokens[start].text, o)), column);
      }
    } else {
      assert PrintCheckClause(None) == [];
      assert CheckClauseOk(None, column);
    }
    ok := cursor == |tokens|;
  }

  /**
   * A statement is accepted exactly when it is the text of an admitted definition, with the meaning of that
   * definition.
   */
  method ParseAddColumn(tokens: seq<Token>) returns (r: Result<Effect, Refusal>)
    requires StartsWithWord(tokens, Ascii("alter"))
    ensures r.Ok? ==> Reads(tokens, r.value)
    ensures forall effect :: Reads(tokens, effect) ==> r == Ok(effect)
    ensures r.Err? ==> r.error == AlterGrammar
  {
    forall d | DefinitionOk(d) && tokens == PrintDefinition(d)
      ensures ParseHead(tokens) == Some((d.(notNull := None, default := None, check := None), |PrintHead(d)|))
    {
      DefinitionComplete(d);
    }
    var head := ParseHead(tokens);
    if head.None? {
      return Err(AlterGrammar);
    }
    var (definition, cursor) := head.value;
    r := ParseConstraints(tokens, definition, cursor);
  }

  function ValueOf(c: Option<(Bytes, Default)>): Option<Bytes> {
    match c case None => None case Some((_, d)) => Some(DefaultValue(d))
  }

  /** The DEFAULT clause, if there is one. */
  method ParseDefaultAt(tokens: seq<Token>, start: nat) returns (r: Option<(Option<Bytes>, nat)>)
    requires start <= |tokens|
    ensures var clause := ParseDefaultClause(tokens[start..]);
            && (r.Some? <==> clause.Some?)
            && (r.Some? ==>
                  && r.value.0 == ValueOf(clause.value.0)
                  && r.value.1 <= |tokens| && tokens[r.value.1..] == clause.value.1)
  {
    if StartsWithWord(tokens[start..], Ascii("default")) {
      assert tokens[start..][1..] == tokens[start + 1..];
      var parsed := ParseDefault(tokens[start + 1..]);
      if parsed.None? {
        return None;
      }
      DefaultRest(tokens, start + 1);
      return Some((Some(DefaultValue(parsed.value.0)), |tokens| - |parsed.value.1|));
    }
    return Some((None, start));
  }

  /** The optional clauses after the declared type. */
  method ParseConstraints(tokens: seq<Token>, definition: Definition, start: nat) returns (r: Result<Effect, Refusal>)
    requires ParseHead(tokens) == Some((definition, start))
    ensures r.Ok? ==> Reads(tokens, r.value)
    ensures forall effect :: Reads(tokens, effect) ==> r == Ok(effect)
    ensures r.Err? ==> r.error == AlterGrammar
  {
    HeadSound(tokens);
    var cursor := start;
    ghost var (n, afterNull) := ParseNotNull(tokens[start..]);
    NotNullSound(tokens[start..]);
    forall d | DefinitionOk(d) && tokens == PrintDefinition(d)
      ensures definition == d.(notNull := None, default := None, check := None) && n == d.notNull
      ensures ParseDefaultClause(afterNull) == Some((d.default, PrintCheckClause(d.check)))
    {
      DefinitionComplete(d);
    }
    var notNull := false;
    if StartsWithWord(tokens[cursor..], Ascii("not")) && StartsWithWord(tokens[cursor..][1..], Ascii("null")) {
      notNull := true;
      cursor := cursor + 2;
    }
    assert tokens[cursor..] == afterNull && (notNull <==> n.Some?);
    var defaulted := ParseDefaultAt(tokens, cursor);
    if defaulted.None? {
      return Err(AlterGrammar);
    }
    DefaultClauseSound(afterNull);
    ghost var c := ParseDefaultClause(afterNull).value.0;
    NullText(c);
    r := Finish(tokens, definition, notNull, defaulted.value.0, defaulted.value.1,
                definition.(notNull := n, default := c));
  }

  /** The CHECK clause, the end of the statement, and the one combination of clauses that is refused. */
  method Finish(tokens: seq<Token>, definition: Definition, notNull: bool, value: Option<Bytes>, cursor: nat,
                ghost whole: Definition)
    returns (r: Result<Effect, Refusal>)
    requires HeadOk(whole) && NotNullOk(whole.notNull) && DefaultClauseOk(whole.default) && whole.check.None?
    requires definition == whole.(notNull := None, default := None)
    requires (notNull <==> whole.notNull.Some?) && value == ValueOf(whole.default)
    requires cursor <= |tokens|
    requires tokens ==
             PrintHead(whole) + (PrintNotNull(whole.notNull) + (PrintDefaultClause(whole.default) + tokens[cursor..]))
    requires forall d :: DefinitionOk(d) && tokens == PrintDefinition(d) ==>
               d.(check := None) == whole && PrintCheckClause(d.check) == tokens[cursor..]
    ensures r.Ok? ==> Reads(tokens, r.value)
    ensures forall effect :: Reads(tokens, effect) ==> r == Ok(effect)
    ensures r.Err? ==> r.error == AlterGrammar
  {
    NullText(whole.default);
    var checked := ParseCheckClause(tokens, cursor, definition.column);
    if !checked || (notNull && value == Some(Ascii("NULL"))) {
      return Err(AlterGrammar);
    }
    ghost var c :| CheckClauseOk(c, definition.column) && PrintCheckClause(c) == tokens[cursor..];
    ghost var read := whole.(check := c);
    assert DefinitionOk(read) && tokens == PrintDefinition(read);
    r := Ok(Effect(definition.table,
                   Column(-1, definition.column, DeclaredType(definition.declaredType), notNull, value, 0, 0)));
    assert r.value == EffectOf(read);
  }

  lemma DefaultRest(tokens: seq<Token>, at: nat)
    requires at <= |tokens| && ParseDefault(tokens[at..]).Some?
    ensures var rest := ParseDefault(tokens[at..]).value.1; |rest| <= |tokens| && tokens[|tokens| - |rest|..] == rest
  {
  }

  /** A default reads `NULL` exactly when it was written as the null word. */
  lemma NullText(c: Option<(Bytes, Default)>)
    requires DefaultClauseOk(c)
    ensures c.Some? ==> (DefaultValue(c.value.1) == Ascii("NULL") <==> c.value.1.NullDefault?)
  {
    assert Ascii("NULL")[0] == 78;
  }

  /** The additive statements: an added column, the one pragma, or `None` for any other statement. */
  method ClassifyAdditiveStatement(tokens: seq<Token>) returns (r: Result<Option<Statement>, Refusal>)
    ensures !StartsWithWord(tokens, Ascii("alter")) && !StartsWithWord(tokens, Ascii("pragma")) <==> r == Ok(None)
    ensures forall effect :: r == Ok(Some(AddColumnStatement(effect))) <==> Reads(tokens, effect)
    ensures r == Ok(Some(ForeignKeysOn)) <==>
              |tokens| == 4 && IsWord(tokens[0], Ascii("pragma")) && IsWord(tokens[1], Ascii("foreign_keys"))
              && tokens[2] == Symbol('=') && IsWord(tokens[3], Ascii("on"))
  {
    forall effect | Reads(tokens, effect) ensures StartsWithWord(tokens, Ascii("alter")) {
      var d :| DefinitionOk(d) && tokens == PrintDefinition(d) && effect == EffectOf(d);
      assert tokens[0] == Word(d.words.0);
    }
    assert Lower(Ascii("alter"))[0] != Lower(Ascii("pragma"))[0];
    if StartsWithWord(tokens, Ascii("alter")) {
      var parsed := ParseAddColumn(tokens);
      return match parsed case Err(e) => Err(e) case Ok(effect) => Ok(Some(AddColumnStatement(effect)));
    }
    if StartsWithWord(tokens, Ascii("pragma")) {
      if |tokens| == 4 && IsWord(tokens[1], Ascii("foreign_keys")) && tokens[2] == Symbol('=')
          && IsWord(tokens[3], Ascii("on")) {
        return Ok(Some(ForeignKeysOn));
      }
      return Err(PragmaGrammar);
    }
    return Ok(None);
  }
}
