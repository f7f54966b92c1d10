/** The `commaSeparated` and `commaSeparated1` helpers of the grammar as
    parser combinators over tokens, with their printer and the two facts every
    list rule of the grammar is built on: what a list parse yields is the
    printed list, and a printed list is read back whole.

    A printer puts the tokens of a value in front of the tokens that follow
    it, so that "the printing of x, then T" is one term and no reasoning about
    the grouping of concatenations is needed. */
module Combinators {
  import opened Wrappers
  import opened Tokens

  /** A parser reads a prefix of the tokens and yields a value and the tokens
      after it. */
  type Parser<X> = seq<Token> -> Option<(X, seq<Token>)>

  /** put(x, T) is the printing of x followed by T. */
  type Printer<-X> = (X, seq<Token>) -> seq<Token>

  /** On success p reads at least one token. */
  ghost predicate Consumes<X>(p: Parser<X>) {
    forall ts :: p(ts).Some? ==> |p(ts).value.1| < |ts|
  }

  /** What p yields is the printing of its value, and the value is one `wf`
      admits. */
  ghost predicate SoundFor<X>(p: Parser<X>, put: Printer<X>, wf: X -> bool) {
    forall ts :: p(ts).Some? ==> ts == put(p(ts).value.0, p(ts).value.1) && wf(p(ts).value.0)
  }

  /** The items printed with a comma between each two, in front of T. */
  function Separated<X>(put: Printer<X>, xs: seq<X>, T: seq<Token>): seq<Token> {
    if |xs| == 0 then T
    else if |xs| == 1 then put(xs[0], T)
    else put(xs[0], [Fixed(COMMA)] + Separated(put, xs[1..], T))
  }

  /** `commaSeparated1(rule)`: rule, then any number of `,` rule. Once a comma
      is read another item must follow. */
  function CommaSeparated1<X>(p: Parser<X>, ts: seq<Token>): (r: Option<(seq<X>, seq<Token>)>)
    requires Consumes(p)
    ensures r.Some? ==> |r.value.0| >= 1 && |r.value.1| < |ts| && !StartsWith(r.value.1, COMMA)
    decreases |ts|
  {
    match p(ts)
    case None => None
    case Some((x, rest)) =>
      if StartsWith(rest, COMMA) then
        match CommaSeparated1(p, rest[1..])
        case None => None
        case Some((xs, rest')) => Some(([x] + xs, rest'))
      else Some(([x], rest))
  }

  /** `commaSeparated(rule)`: the same list, or nothing at all when rule does
      not match. */
  function CommaSeparated<X>(p: Parser<X>, ts: seq<Token>): (r: Option<(seq<X>, seq<Token>)>)
    requires Consumes(p)
    ensures r.Some? ==> |r.value.1| <= |ts|
    ensures p(ts).None? ==> r == Some(([], ts))
    ensures p(ts).Some? && r.Some? ==> |r.value.0| >= 1 && !StartsWith(r.value.1, COMMA)
  {
    match p(ts)
    case None => Some(([], ts))
    case Some(_) => CommaSeparated1(p, ts)
  }

  /** Every list `commaSeparated1` yields is a non-empty list of admitted
      items, printed with commas, and not followed by a comma. */
  lemma {:induction false} CommaSeparated1Sound<X>(p: Parser<X>, put: Printer<X>, wf: X -> bool, ts: seq<Token>)
    requires Consumes(p) && SoundFor(p, put, wf)
    ensures var r := CommaSeparated1(p, ts);
      r.Some? ==>
        && ts == Separated(put, r.value.0, r.value.1)
        && (forall i | 0 <= i < |r.value.0| :: wf(r.value.0[i]))
    decreases |ts|
  {
    var r := CommaSeparated1(p, ts);
    if r.Some? {
      var (x, rest) := p(ts).value;
      if StartsWith(rest, COMMA) {
        CommaSeparated1Sound(p, put, wf, rest[1..]);
        var (xs, rest') := CommaSeparated1(p, rest[1..]).value;
        var ys := [x] + xs;
        assert ys[0] == x && ys[1..] == xs;
        assert rest == [Fixed(COMMA)] + rest[1..];
      }
    }
  }

  lemma CommaSeparatedSound<X>(p: Parser<X>, put: Printer<X>, wf: X -> bool, ts: seq<Token>)
    requires Consumes(p) && SoundFor(p, put, wf)
    ensures var r := CommaSeparated(p, ts);
      r.Some? ==>
        && ts == Separated(put, r.value.0, r.value.1)
        && (forall i | 0 <= i < |r.value.0| :: wf(r.value.0[i]))
  {
    if p(ts).Some? { CommaSeparated1Sound(p, put, wf, ts); }
  }

  /** p reads x back whole when a comma or an admitted follower comes after
      its printing. */
  ghost predicate ReadsBack<X>(p: Parser<X>, put: Printer<X>, x: X, follow: seq<Token> -> bool) {
    forall T | StartsWith(T, COMMA) || follow(T) :: p(put(x, T)) == Some((x, T))
  }

  /** One more item and its comma in front of a list that reads back. */
  lemma CommaSeparated1Cons<X>(p: Parser<X>, ts: seq<Token>, x: X, t0: seq<Token>, xs: seq<X>, T: seq<Token>)
    requires Consumes(p)
    requires p(ts) == Some((x, t0)) && StartsWith(t0, COMMA)
    requires CommaSeparated1(p, t0[1..]) == Some((xs, T))
    ensures CommaSeparated1(p, ts) == Some(([x] + xs, T))
  {
  }

  /** A printed non-empty list is read back whole, provided each item is read
      back whole when a comma or an admitted follower comes after it, and
      the follower does not begin with a comma. */
  lemma {:induction false} CommaSeparated1Complete<X>(
    p: Parser<X>, put: Printer<X>, xs: seq<X>, follow: seq<Token> -> bool, T: seq<Token>)
    requires Consumes(p)
    requires |xs| >= 1
    requires forall i | 0 <= i < |xs| :: ReadsBack(p, put, xs[i], follow)
    requires follow(T) && !StartsWith(T, COMMA)
    ensures CommaSeparated1(p, Separated(put, xs, T)) == Some((xs, T))
    decreases |xs|
  {
    assert ReadsBack(p, put, xs[0], follow);
    if |xs| == 1 {
      assert p(put(xs[0], T)) == Some((xs[0], T));
      assert [xs[0]] == xs;
    } else {
      var t0 := [Fixed(COMMA)] + Separated(put, xs[1..], T);
      assert p(put(xs[0], t0)) == Some((xs[0], t0));
      assert t0[1..] == Separated(put, xs[1..], T);
      assert forall i | 0 <= i < |xs[1..]| :: xs[1..][i] == xs[i + 1];
      CommaSeparated1Complete(p, put, xs[1..], follow, T);
      CommaSeparated1Cons(p, put(xs[0], t0), xs[0], t0, xs[1..], T);
      assert [xs[0]] + xs[1..] == xs;
    }
  }

  /** The same for `commaSeparated`, where the empty list is read back when
      the item parser does not match the follower. */
  lemma CommaSeparatedComplete<X>(
    p: Parser<X>, put: Printer<X>, xs: seq<X>, follow: seq<Token> -> bool, T: seq<Token>)
    requires Consumes(p)
    requires forall i | 0 <= i < |xs| :: ReadsBack(p, put, xs[i], follow)
    requires follow(T) && !StartsWith(T, COMMA)
    requires |xs| == 0 ==> p(T).None?
    ensures CommaSeparated(p, Separated(put, xs, T)) == Some((xs, T))
  {
    if |xs| > 0 {
      CommaSeparated1Complete(p, put, xs, follow, T);
    }
  }

  /** `optional(rule)`: the rule's value when it matches, and nothing
      otherwise; it never fails by itself. */
  function Optional<X>(p: Parser<X>, ts: seq<Token>): (r: (Option<X>, seq<Token>))
    requires Consumes(p)
    ensures |r.1| <= |ts| && (r.0.Some? <==> |r.1| < |ts|)
  {
    match p(ts)
    case None => (None, ts)
    case Some((x, rest)) => (Some(x), rest)
  }

  function PutOptional<X>(put: Printer<X>, o: Option<X>, T: seq<Token>): seq<Token> {
    if o.Some? then put(o.value, T) else T
  }

  /** What `optional` yields is the printing of its value, if any. */
  lemma OptionalSound<X>(p: Parser<X>, put: Printer<X>, wf: X -> bool, ts: seq<Token>)
    requires Consumes(p) && SoundFor(p, put, wf)
    ensures ts == PutOptional(put, Optional(p, ts).0, Optional(p, ts).1)
    ensures Optional(p, ts).0.Some? ==> wf(Optional(p, ts).0.value)
  {
  }

  /** What p yields is the printing of its value. */
  ghost predicate Prints<X>(p: Parser<X>, put: Printer<X>) {
    forall ts :: p(ts).Some? ==> ts == put(p(ts).value.0, p(ts).value.1)
  }

  /** What `optional` yields is the printing of its value, if any. */
  lemma OptionalPrints<X>(p: Parser<X>, put: Printer<X>, ts: seq<Token>)
    requires Consumes(p) && Prints(p, put)
    ensures ts == PutOptional(put, Optional(p, ts).0, Optional(p, ts).1)
  {
  }

  /** A present value is read back when the rule reads it back; an absent
      one when the rule does not match what follows. */
  lemma OptionalComplete<X>(p: Parser<X>, put: Printer<X>, o: Option<X>, T: seq<Token>)
    requires Consumes(p)
    requires o.Some? ==> p(put(o.value, T)) == Some((o.value, T))
    requires o.None? ==> p(T).None?
    ensures Optional(p, PutOptional(put, o, T)) == (o, T)
  {
  }

  /** `commaSeparated1` never yields the empty list, and `commaSeparated`
      yields it exactly when the item does not match. */
  lemma EmptyListOnlyWithoutItem<X>(p: Parser<X>, ts: seq<Token>)
    requires Consumes(p)
    ensures CommaSeparated1(p, ts).Some? ==> |CommaSeparated1(p, ts).value.0| >= 1
    ensures CommaSeparated(p, ts) == Some(([], ts)) <==> p(ts).None?
  {
  }
}
