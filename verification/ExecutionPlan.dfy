/** The execution plan of a manifest (src/d1_migration_manifest.rs): the one pragma prefix that may be dropped. */
module ExecutionPlan {
  import opened Prelude
  import opened PragmaScan

  const FOREIGN_KEYS_ON_PREFIX: Bytes := Ascii("PRAGMA foreign_keys = ON;\n\n")

  datatype Transform = Identity | DropForeignKeysOn

  datatype Entry = Entry(name: string, sql: Bytes)

  datatype Execution = Execution(sourceName: string, transform: Transform, executedSql: Bytes)

  datatype Plan = Plan(migrations: seq<Execution>, transformed: bool)

  datatype Refusal = TransformAmbiguous | TransformUnsupported

  predicate HasPrefix(sql: Bytes) {
    FOREIGN_KEYS_ON_PREFIX <= sql
  }

  /** The one admitted reading of a migration: what is executed, unless the pragma is used some other way. */
  function ExecutionOf(m: Entry): Result<Execution, Refusal> {
    if HasPrefix(m.sql) then
      var remainder := m.sql[|FOREIGN_KEYS_ON_PREFIX|..];
      if !ExecutableText(remainder) || NamesForeignKeysPragma(remainder) then Err(TransformAmbiguous)
      else Ok(Execution(m.name, DropForeignKeysOn, remainder))
    else if NamesForeignKeysPragma(m.sql) then Err(TransformUnsupported)
    else Ok(Execution(m.name, Identity, m.sql))
  }

  ghost predicate PlanOf(manifest: seq<Entry>, plan: Plan) {
    && |plan.migrations| == |manifest|
    && (forall i :: 0 <= i < |manifest| ==> ExecutionOf(manifest[i]) == Ok(plan.migrations[i]))
    && (plan.transformed <==> exists i :: 0 <= i < |manifest| && plan.migrations[i].transform == DropForeignKeysOn)
  }

  method Execute(m: Entry) returns (r: Result<Execution, Refusal>)
    ensures r == ExecutionOf(m)
  {
    if HasPrefix(m.sql) {
      var remainder := m.sql[|FOREIGN_KEYS_ON_PREFIX|..];
      var executable := ContainsNonTriviaSql(remainder);
      var pragma := ContainsForeignKeysPragma(remainder);
      if !executable || pragma {
        return Err(TransformAmbiguous);
      }
      return Ok(Execution(m.name, DropForeignKeysOn, remainder));
    }
    var pragma := ContainsForeignKeysPragma(m.sql);
    if pragma {
      return Err(TransformUnsupported);
    }
    return Ok(Execution(m.name, Identity, m.sql));
  }

  /** The plan, or the refusal of the first migration that has one. */
  method DerivePlan(manifest: seq<Entry>) returns (r: Result<Plan, Refusal>)
    ensures r.Ok? ==> PlanOf(manifest, r.value)
    ensures r.Err? ==> exists i :: 0 <= i < |manifest| && ExecutionOf(manifest[i]) == Err(r.error)
                                   && forall k :: 0 <= k < i ==> ExecutionOf(manifest[k]).Ok?
  {
    var transformed := false;
    var migrations: seq<Execution> := [];
    for i := 0 to |manifest|
      invariant |migrations| == i
      invariant forall k :: 0 <= k < i ==> ExecutionOf(manifest[k]) == Ok(migrations[k])
      invariant transformed <==> exists k :: 0 <= k < i && migrations[k].transform == DropForeignKeysOn
    {
      var execution := Execute(manifest[i]);
      if execution.Err? {
        return Err(execution.error);
      }
      ghost var before := migrations;
      migrations := migrations + [execution.value];
      assert forall k :: 0 <= k < i ==> migrations[k] == before[k];
      assert migrations[i] == execution.value;
      transformed := transformed || execution.value.transform == DropForeignKeysOn;
    }
    return Ok(Plan(migrations, transformed));
  }

  // ---- What a plan guarantees ----

  predicate IsWordText(w: Bytes) {
    w != [] && forall i :: 0 <= i < |w| ==> WordByte(w[i])
  }

  lemma {:induction false} WordLengthIs(w: Bytes, tail: Bytes)
    requires forall i :: 0 <= i < |w| ==> WordByte(w[i])
    requires tail != [] && tail[0] == 32
    ensures WordLength(w + tail) == |w|
  {
    if w == [] {
      assert w + tail == tail;
    } else {
      assert (w + tail)[1..] == w[1..] + tail;
      WordLengthIs(w[1..], tail);
    }
  }

  lemma LexWord(w: Bytes, tail: Bytes)
    requires IsWordText(w) && tail != [] && tail[0] == 32
    ensures LexOne(w + tail) == Scanned(Name(w), |w|, false)
  {
    WordLengthIs(w, tail);
    var s := w + tail;
    assert s[0] == w[0] && BOM[0] == 0xEF && WordByte(s[0]);
    assert KindOf(s) == Word && s[..|w|] == w;
  }

  lemma LexSpace(rest: Bytes)
    ensures LexOne([32] + rest) == Scanned(Trivia, 1, false)
  {
    var s: Bytes := [32] + rest;
    assert s[0] == 32 && BOM[0] == 0xEF;
    assert KindOf(s) == Space;
  }

  /** The machine over a text whose first lexeme is known. */
  lemma MachineOver(state: ScanState, first: Bytes, rest: Bytes, l: Lexeme)
    requires first != [] && LexOne(first + rest) == Scanned(l, |first|, false)
    ensures RunMachine(state, Tokenise(first + rest)) == RunMachine(OnLexeme(state, l), Tokenise(rest))
  {
    MachineAdvances(state, first + rest);
    assert (first + rest)[|first|..] == rest;
  }

  /** A word and a space in front of a text. */
  lemma MachineOnWord(state: ScanState, w: Bytes, rest: Bytes)
    requires IsWordText(w)
    ensures RunMachine(state, Tokenise(w + ([32] + rest))) == RunMachine(OnLexeme(state, Name(w)), Tokenise(rest))
  {
    LexWord(w, [32] + rest);
    MachineOver(state, w, [32] + rest, Name(w));
    LexSpace(rest);
    MachineOver(OnLexeme(state, Name(w)), [32], rest, Trivia);
    assert OnLexeme(OnLexeme(state, Name(w)), Trivia) == OnLexeme(state, Name(w));
  }

  const ON_TEXT: Bytes := Ascii("= ON;\n\n")

  lemma PrefixWords(rest: Bytes)
    ensures FOREIGN_KEYS_ON_PREFIX + rest == Ascii("PRAGMA") + ([32] + (FOREIGN_KEYS + ([32] + (ON_TEXT + rest))))
  {
    assert FOREIGN_KEYS_ON_PREFIX == Ascii("PRAGMA") + [32] + FOREIGN_KEYS + [32] + ON_TEXT;
    Reassociate(Ascii("PRAGMA") + [32] + FOREIGN_KEYS + [32], ON_TEXT, rest);
    Reassociate(Ascii("PRAGMA") + [32] + FOREIGN_KEYS, [32], ON_TEXT + rest);
    Reassociate(Ascii("PRAGMA") + [32], FOREIGN_KEYS, [32] + (ON_TEXT + rest));
    Reassociate(Ascii("PRAGMA"), [32], FOREIGN_KEYS + ([32] + (ON_TEXT + rest)));
  }

  /** The reviewed prefix itself names the pragma, whatever follows it. */
  lemma PrefixNamesPragma(rest: Bytes)
    ensures NamesForeignKeysPragma(FOREIGN_KEYS_ON_PREFIX + rest)
  {
    PrefixWords(rest);
    PragmaSpelling();
    ForeignKeysSpelling();
    MachineOnWord(StatementStart, Ascii("PRAGMA"), FOREIGN_KEYS + ([32] + (ON_TEXT + rest)));
    MachineOnWord(PragmaName, FOREIGN_KEYS, ON_TEXT + rest);
    FoundStays(Tokenise(ON_TEXT + rest));
  }

  lemma PragmaSpelling()
    ensures IsWordText(Ascii("PRAGMA")) && SameWord(Ascii("PRAGMA"), Ascii("pragma"))
  {
    var upper, lower := Ascii("PRAGMA"), Ascii("pragma");
    forall i | 0 <= i < 6 ensures LowerByte(upper[i]) == LowerByte(lower[i]) {}
    assert |Lower(upper)| == |Lower(lower)|;
  }

  lemma ForeignKeysSpelling()
    ensures IsWordText(FOREIGN_KEYS) && SameWord(FOREIGN_KEYS, FOREIGN_KEYS)
  {
    var letters := "foreign_keys";
    forall i | 0 <= i < 12 ensures WordByte(FOREIGN_KEYS[i]) {
      assert FOREIGN_KEYS[i] == letters[i] as int;
    }
  }

  /**
   * Of every migration in a derived plan: the source is the executed text, alone or
   * behind the fixed prefix; the executed text names no foreign_keys pragma; and a
   * dropped prefix leaves something to execute.
   */
  lemma PlannedExecution(manifest: seq<Entry>, plan: Plan, i: nat)
    requires PlanOf(manifest, plan) && i < |manifest|
    ensures var e := plan.migrations[i];
            && e.sourceName == manifest[i].name
            && !NamesForeignKeysPragma(e.executedSql)
            && manifest[i].sql == (if e.transform == DropForeignKeysOn then FOREIGN_KEYS_ON_PREFIX + e.executedSql
                                   else e.executedSql)
            && (e.transform == DropForeignKeysOn ==> ExecutableText(e.executedSql))
            && (e.transform == DropForeignKeysOn <==> NamesForeignKeysPragma(manifest[i].sql))
  {
    var sql := manifest[i].sql;
    assert ExecutionOf(manifest[i]) == Ok(plan.migrations[i]);
    if HasPrefix(sql) {
      assert sql == FOREIGN_KEYS_ON_PREFIX + sql[|FOREIGN_KEYS_ON_PREFIX|..];
      PrefixNamesPragma(sql[|FOREIGN_KEYS_ON_PREFIX|..]);
    }
  }

  function Executed(plan: Plan): (m: seq<Entry>)
    ensures |m| == |plan.migrations|
    ensures forall i :: 0 <= i < |m| ==> m[i] == Entry(plan.migrations[i].sourceName, plan.migrations[i].executedSql)
  {
    seq(|plan.migrations|, i
        requires 0 <= i < |plan.migrations| => Entry(plan.migrations[i].sourceName, plan.migrations[i].executedSql))
  }

  /** Deriving again from what is executed changes nothing any more. */
  lemma DerivingAgainIsIdentity(manifest: seq<Entry>, plan: Plan, again: Plan)
    requires PlanOf(manifest, plan) && PlanOf(Executed(plan), again)
    ensures !again.transformed && Executed(again) == Executed(plan)
  {
    forall i | 0 <= i < |manifest|
      ensures again.migrations[i] == Execution(plan.migrations[i].sourceName, Identity, plan.migrations[i].executedSql)
    {
      PlannedExecution(manifest, plan, i);
      PlannedExecution(Executed(plan), again, i);
    }
  }

  /** And it is never refused. */
  lemma DerivingAgainSucceeds(manifest: seq<Entry>, plan: Plan, i: nat)
    requires PlanOf(manifest, plan) && i < |manifest|
    ensures ExecutionOf(Executed(plan)[i]).Ok?
  {
    PlannedExecution(manifest, plan, i);
    var sql := plan.migrations[i].executedSql;
    if HasPrefix(sql) {
      assert sql == FOREIGN_KEYS_ON_PREFIX + sql[|FOREIGN_KEYS_ON_PREFIX|..];
      PrefixNamesPragma(sql[|FOREIGN_KEYS_ON_PREFIX|..]);
    }
  }
}
