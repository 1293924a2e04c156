/** Scoring one plugin's `.regex` string against the instrument ID: every
    space separated fragment is compiled and searched for on its own, and
    the score is the number of fragments found. */
module Matcher {
  import opened Tokenize

  /** The POSIX regular expression engine, left abstract: whether
      `regcomp(…, REG_EXTENDED | REG_NOSUB)` accepts a pattern, and whether
      `regexec` then finds it somewhere in a string. */
  datatype Engine = Engine(compiles: string -> bool, search: (string, string) -> bool)

  /** `regex_match(string, pattern)`: a pattern that does not compile counts
      as no match; otherwise the search decides. */
  predicate RegexMatch(e: Engine, s: string, pattern: string): (matched: bool)
    ensures !e.compiles(pattern) ==> !matched
  {
    e.compiles(pattern) && e.search(s, pattern)
  }

  /** How many of the fragments match the ID. */
  function MatchCount(e: Engine, id: string, ts: seq<string>): (n: nat)
    ensures n <= |ts|
  {
    if ts == [] then 0
    else (if RegexMatch(e, id, ts[0]) then 1 else 0) + MatchCount(e, id, ts[1..])
  }

  /** A malformed pattern never scores: if no fragment compiles, the count
      is zero; if every fragment compiles and is found, it is the number of
      fragments. */
  lemma {:induction false} MatchCountExtremes(e: Engine, id: string, ts: seq<string>)
    ensures (forall k :: 0 <= k < |ts| ==> !e.compiles(ts[k])) ==> MatchCount(e, id, ts) == 0
    ensures (forall k :: 0 <= k < |ts| ==> RegexMatch(e, id, ts[k])) ==> MatchCount(e, id, ts) == |ts|
    decreases |ts|
  {
    if ts != [] {
      MatchCountExtremes(e, id, ts[1..]);
      assert forall k :: 1 <= k < |ts| ==> ts[1..][k - 1] == ts[k];
    }
  }

  /** The count of a concatenation is the sum of the counts. */
  lemma {:induction false} MatchCountAppend(e: Engine, id: string, a: seq<string>, b: seq<string>)
    ensures MatchCount(e, id, a + b) == MatchCount(e, id, a) + MatchCount(e, id, b)
    decreases |a|
  {
    if a != [] {
      assert (a + b)[1..] == a[1..] + b;
      MatchCountAppend(e, id, a[1..], b);
    } else {
      assert a + b == b;
    }
  }

  /** The count of a list with one element singled out. */
  lemma MatchCountAround(e: Engine, id: string, b: seq<string>, k: nat)
    requires k < |b|
    ensures MatchCount(e, id, b)
         == MatchCount(e, id, b[..k] + b[k + 1..]) + (if RegexMatch(e, id, b[k]) then 1 else 0)
  {
    assert b == b[..k] + ([b[k]] + b[k + 1..]);
    MatchCountAppend(e, id, b[..k], [b[k]] + b[k + 1..]);
    MatchCountAppend(e, id, b[..k], b[k + 1..]);
    assert ([b[k]] + b[k + 1..])[1..] == b[k + 1..];
  }

  /** Taking the same element out of two permutations of each other leaves
      permutations of each other. */
  lemma RemoveFromPermutation(a: seq<string>, b: seq<string>, k: nat)
    requires multiset(a) == multiset(b) && a != [] && k < |b| && b[k] == a[0]
    ensures multiset(a[1..]) == multiset(b[..k] + b[k + 1..])
  {
    assert a == [a[0]] + a[1..];
    assert b == b[..k] + [b[k]] + b[k + 1..];
    assert multiset(a[1..]) == multiset(a) - multiset{a[0]};
    assert multiset(b[..k] + b[k + 1..]) == multiset(b) - multiset{b[k]};
  }

  /** The order of the fragments does not affect the count. */
  lemma {:induction false} MatchCountPermutation(e: Engine, id: string, a: seq<string>, b: seq<string>)
    requires multiset(a) == multiset(b)
    ensures MatchCount(e, id, a) == MatchCount(e, id, b)
    decreases |a|
  {
    if a == [] {
      assert |b| == |multiset(b)| == 0;
    } else {
      assert a[0] in multiset(b);
      var k :| 0 <= k < |b| && b[k] == a[0];
      RemoveFromPermutation(a, b, k);
      MatchCountPermutation(e, id, a[1..], b[..k] + b[k + 1..]);
      MatchCountAround(e, id, b, k);
    }
  }

  /** The inner loop of the autodetection: walk the fragments of a `strdup`
      copy of the regex string with `strtok` and count those that match the
      ID. The count is that of the fragments `Tokens` describes. */
  method CountMatches(e: Engine, id: string, regex: string) returns (matchCount: nat)
    ensures matchCount == MatchCount(e, id, Tokens(regex))
  {
    var buffer := regex;
    var pos := 0;
    var tokenFound := true;
    matchCount := 0;
    while tokenFound
      invariant pos <= |buffer|
      invariant tokenFound ==> matchCount + MatchCount(e, id, Tokens(buffer[pos..])) == MatchCount(e, id, Tokens(regex))
      invariant !tokenFound ==> matchCount == MatchCount(e, id, Tokens(regex))
      decreases if tokenFound then |buffer| - pos + 1 else 0
    {
      var token, next := StrTok(buffer, pos);
      if token.Some? {
        if RegexMatch(e, id, token.value) {
          matchCount := matchCount + 1;
        }
        assert ([token.value] + Tokens(buffer[next..]))[1..] == Tokens(buffer[next..]);
        pos := next;
      } else {
        tokenFound := false;
      }
    }
  }
}
