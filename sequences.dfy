/** Small facts about sequences, kept apart so that each is proved in a
    context of its own. */
module Sequences {
  lemma AppendAssoc<X>(a: seq<X>, b: seq<X>, c: seq<X>)
    ensures (a + b) + c == a + (b + c)
  {
  }

  lemma ConsParts<X>(x: X, s: seq<X>)
    ensures ([x] + s)[0] == x && ([x] + s)[1..] == s
  {
  }

  lemma HeadTail<X>(s: seq<X>)
    requires |s| >= 1
    ensures s == [s[0]] + s[1..]
  {
  }
}
