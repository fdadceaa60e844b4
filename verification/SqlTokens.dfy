/** Tokens of the SQL statements the closed grammars read (src/d1_migration_reconciliation.rs). */
module SqlTokens {
  import opened Prelude

  datatype Token = Word(text: Bytes) | Identifier(text: Bytes) | StringLiteral(text: Bytes) | Symbol(symbol: char)

  predicate IsWord(t: Token, expected: Bytes) {
    t.Word? && SameWord(t.text, expected)
  }

  predicate StartsWithWord(ts: seq<Token>, expected: Bytes) {
    |ts| > 0 && IsWord(ts[0], expected)
  }

  predicate StartsWithSymbol(ts: seq<Token>, c: char) {
    |ts| > 0 && ts[0] == Symbol(c)
  }

  /** An ASCII identifier: a letter or underscore first, then letters, digits, underscores. */
  predicate CanonicalIdentifier(w: Bytes) {
    && 1 <= |w| <= 128
    && (w[0] == 95 || IsLetter(w[0]))
    && forall i :: 1 <= i < |w| ==> w[i] == 95 || IsLetter(w[i]) || IsDigit(w[i])
  }

  lemma Glue<T>(a: seq<T>, x: T, b: seq<T>, rest: seq<T>)
    ensures a + ([x] + (b + rest)) == a + [x] + b + rest
  {
  }
}
