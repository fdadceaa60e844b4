/**
 * Bounded comma-separated lists, over any parser of their items. The
 * closed grammars read CHECK values, literals of a row, and rows this way.
 */
module CommaList {
  import opened Prelude
  import opened SqlTokens

  /** An item and the tokens after it, if there is one. */
  type Item<A> = seq<Token> -> Option<(A, seq<Token>)>

  function Print<A>(text: A -> seq<Token>, xs: seq<A>): seq<Token> {
    if xs == [] then []
    else if |xs| == 1 then text(xs[0])
    else text(xs[0]) + ([Symbol(',')] + Print(text, xs[1..]))
  }

  /** One item or more, at most `room`, as long as commas follow. */
  function Parse<A>(item: Item<A>, ts: seq<Token>, room: nat): (r: Option<(seq<A>, seq<Token>)>)
    ensures r.Some? ==> 1 <= |r.value.0| <= room
    decreases room, |ts|
  {
    match item(ts)
    case None => None
    case Some((x, rest)) =>
      if room == 0 then None
      else if !StartsWithSymbol(rest, ',') then Some(([x], rest))
      else Prepend([x], Parse(item, rest[1..], room - 1))
  }

  function Prepend<A>(first: seq<A>, r: Option<(seq<A>, seq<Token>)>): Option<(seq<A>, seq<Token>)> {
    match r case None => None case Some((more, rest)) => Some((first + more, rest))
  }

  lemma PrependTwice<A>(first: seq<A>, x: A, r: Option<(seq<A>, seq<Token>)>)
    ensures Prepend(first + [x], r) == Prepend(first, Prepend([x], r))
    ensures Prepend([], r) == r
  {
    if r.Some? { assert first + [x] + r.value.0 == first + ([x] + r.value.0) && [] + r.value.0 == r.value.0; }
  }

  /** Only the tokens left over. */
  function Rest<A>(r: Option<(seq<A>, seq<Token>)>): Option<seq<Token>> {
    match r case None => None case Some((_, rest)) => Some(rest)
  }

  lemma RestUnfolds<A>(item: Item<A>, ts: seq<Token>, room: nat)
    ensures Rest(Parse(item, ts, room)) ==
            match item(ts)
            case None => None
            case Some((_, rest)) =>
              if room == 0 then None else if !StartsWithSymbol(rest, ',') then Some(rest)
                else Rest(Parse(item, rest[1..], room - 1))
  {
  }

  lemma {:induction false} ListShrinks<A>(item: Item<A>, ts: seq<Token>, room: nat)
    requires forall us :: item(us).Some? ==> |item(us).value.1| < |us|
    ensures var r := Parse(item, ts, room); r.Some? ==> |r.value.1| < |ts|
    decreases room
  {
    if item(ts).Some? && room > 0 && StartsWithSymbol(item(ts).value.1, ',') {
      ListShrinks(item, item(ts).value.1[1..], room - 1);
    }
  }

  ghost predicate AllOk<A>(ok: A -> bool, xs: seq<A>) {
    forall i :: 0 <= i < |xs| ==> ok(xs[i])
  }

  /** Whatever is read is admitted and was written there. */
  ghost predicate ItemSound<A>(item: Item<A>, text: A -> seq<Token>, ok: A -> bool) {
    forall ts :: item(ts).Some? ==> ok(item(ts).value.0) && ts == text(item(ts).value.0) + item(ts).value.1
  }

  /** Whatever admitted is written is read back, and only it is consumed. */
  ghost predicate ItemComplete<A(!new)>(item: Item<A>, text: A -> seq<Token>, ok: A -> bool) {
    forall x, rest :: ok(x) ==> item(text(x) + rest) == Some((x, rest))
  }

  lemma {:induction false} ListSound<A>(item: Item<A>, text: A -> seq<Token>, ok: A -> bool, ts: seq<Token>, room: nat)
    requires ItemSound(item, text, ok) && Parse(item, ts, room).Some?
    ensures var (xs, rest) := Parse(item, ts, room).value; AllOk(ok, xs) && ts == Print(text, xs) + rest
    decreases room
  {
    var (x, rest) := item(ts).value;
    if StartsWithSymbol(rest, ',') {
      ListSound(item, text, ok, rest[1..], room - 1);
      var (xs, after) := Parse(item, rest[1..], room - 1).value;
      assert ([x] + xs)[1..] == xs && rest == [Symbol(',')] + rest[1..];
      Reassociate(text(x), [Symbol(',')] + Print(text, xs), after);
      Reassociate([Symbol(',')], Print(text, xs), after);
    }
  }

  lemma {:induction false} ListComplete<A(!new)>(item: Item<A>, text: A -> seq<Token>, ok: A -> bool, xs: seq<A>,
                                                 rest: seq<Token>, room: nat)
    requires ItemComplete(item, text, ok) && AllOk(ok, xs) && 1 <= |xs| <= room && !StartsWithSymbol(rest, ',')
    ensures Parse(item, Print(text, xs) + rest, room) == Some((xs, rest))
    decreases room
  {
    if |xs| == 1 {
      assert item(text(xs[0]) + rest) == Some((xs[0], rest)) && xs == [xs[0]];
    } else {
      var more := Print(text, xs[1..]) + rest;
      Reassociate(text(xs[0]), [Symbol(',')] + Print(text, xs[1..]), rest);
      Reassociate([Symbol(',')], Print(text, xs[1..]), rest);
      assert item(text(xs[0]) + ([Symbol(',')] + more)) == Some((xs[0], [Symbol(',')] + more));
      assert ([Symbol(',')] + more)[1..] == more;
      ListComplete(item, text, ok, xs[1..], rest, room - 1);
      assert xs == [xs[0]] + xs[1..];
    }
  }

  // ---- Reading a list with a cursor ----

  /** `xs` are the first items after `start`; the others start at `cursor`. */
  ghost predicate Progress<A>(item: Item<A>, tokens: seq<Token>, start: nat, limit: nat, cursor: nat, xs: seq<A>)
    requires start <= |tokens| && cursor <= |tokens| && |xs| <= limit
  {
    Parse(item, tokens[start..], limit) == Prepend(xs, Parse(item, tokens[cursor..], limit - |xs|))
  }

  lemma ProgressStart<A>(item: Item<A>, tokens: seq<Token>, start: nat, limit: nat)
    requires start <= |tokens|
    ensures Progress(item, tokens, start, limit, start, [])
  {
    var whole := Parse(item, tokens[start..], limit);
    if whole.Some? { assert [] + whole.value.0 == whole.value.0; }
  }

  lemma ProgressStep<A>(item: Item<A>, tokens: seq<Token>, start: nat, limit: nat, cursor: nat, xs: seq<A>, x: A,
                        next: nat)
    requires start <= |tokens| && cursor <= |tokens| && |xs| < limit && next <= |tokens|
    requires Progress(item, tokens, start, limit, cursor, xs) && item(tokens[cursor..]) == Some((x, tokens[next..]))
    ensures !StartsWithSymbol(tokens[next..], ',') ==>
              Parse(item, tokens[start..], limit) == Some((xs + [x], tokens[next..]))
    ensures StartsWithSymbol(tokens[next..], ',') ==> Progress(item, tokens, start, limit, next + 1, xs + [x])
  {
    if StartsWithSymbol(tokens[next..], ',') {
      assert tokens[next..][1..] == tokens[next + 1..];
      PrependTwice(xs, x, Parse(item, tokens[next + 1..], limit - |xs| - 1));
    }
  }

  lemma ProgressFails<A>(item: Item<A>, tokens: seq<Token>, start: nat, limit: nat, cursor: nat, xs: seq<A>)
    requires start <= |tokens| && cursor <= |tokens| && |xs| <= limit
    requires Progress(item, tokens, start, limit, cursor, xs) && (|xs| == limit || item(tokens[cursor..]).None?)
    ensures Parse(item, tokens[start..], limit).None?
  {
  }

  /** What has been read is a prefix of the whole list. */
  lemma ProgressPrefix<A>(item: Item<A>, tokens: seq<Token>, start: nat, limit: nat, cursor: nat, xs: seq<A>)
    requires start <= |tokens| && cursor <= |tokens| && |xs| <= limit
             && Progress(item, tokens, start, limit, cursor, xs)
    ensures var whole := Parse(item, tokens[start..], limit); whole.Some? ==> xs < whole.value.0
  {
  }
}
