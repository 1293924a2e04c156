/** The `strtok(buffer, " ")` walk that splits a plugin's `.regex` string
    into its space separated fragments. */
module Tokenize {
  import opened Wrappers

  /** The fields between single spaces, empty ones included: a string with
      n spaces has n + 1 fields. */
  function Fields(s: string): (r: seq<string>)
    ensures |r| >= 1
  {
    if s == [] then [[]]
    else
      var rest := Fields(s[1..]);
      if s[0] == ' ' then [[]] + rest
      else [[s[0]] + rest[0]] + rest[1..]
  }

  /** The fields that are not empty, in order. */
  function NonEmpty(fs: seq<string>): (r: seq<string>)
    ensures |r| <= |fs|
    ensures forall t :: t in r ==> t != [] && t in fs
  {
    if fs == [] then []
    else if fs[0] == [] then NonEmpty(fs[1..])
    else [fs[0]] + NonEmpty(fs[1..])
  }

  /** Dropping empty fields keeps a list without any. */
  lemma {:induction false} NonEmptyKeepsAll(fs: seq<string>)
    requires forall k :: 0 <= k < |fs| ==> fs[k] != []
    ensures NonEmpty(fs) == fs
    decreases |fs|
  {
    if fs != [] {
      NonEmptyKeepsAll(fs[1..]);
    }
  }

  /** What repeated `strtok(…, " ")` calls yield: the non-empty fields. */
  function Tokens(s: string): seq<string>
  {
    NonEmpty(Fields(s))
  }

  /** A fragment as `strtok` returns it: non-empty and free of spaces. */
  predicate IsFragment(t: string)
  {
    t != [] && ' ' !in t
  }

  /** The fragments joined with one space between neighbours. */
  function JoinSpaces(ts: seq<string>): string
  {
    if ts == [] then []
    else if |ts| == 1 then ts[0]
    else ts[0] + " " + JoinSpaces(ts[1..])
  }

  /** A space-free prefix glues onto the first field of what follows. */
  lemma {:induction false} FieldsPrefix(w: string, t: string)
    requires ' ' !in w
    ensures Fields(w + t) == [w + Fields(t)[0]] + Fields(t)[1..]
    decreases |w|
  {
    if w != [] {
      assert (w + t)[1..] == w[1..] + t;
      FieldsPrefix(w[1..], t);
      var rest := Fields(w[1..] + t);
      assert (w + t)[0] == w[0] && w[0] != ' ';
      assert Fields(w + t) == [[w[0]] + rest[0]] + rest[1..];
      assert [w[0]] + (w[1..] + Fields(t)[0]) == w + Fields(t)[0];
    } else {
      assert w + t == t && w + Fields(t)[0] == Fields(t)[0];
    }
  }

  /** A word followed by a space is one whole field. */
  lemma FieldsWord(w: string, u: string)
    requires ' ' !in w
    ensures Fields(w + [' '] + u) == [w] + Fields(u)
    ensures Fields(w) == [w]
  {
    FieldsPrefix(w, [' '] + u);
    assert w + [' '] + u == w + ([' '] + u);
    assert ([' '] + u)[1..] == u;
    FieldsPrefix(w, []);
    assert w + [] == w;
  }

  /** A leading space never starts a token. */
  lemma TokensSpace(u: string)
    ensures Tokens([' '] + u) == Tokens(u)
  {
    assert ([' '] + u)[1..] == u;
  }

  /** Every token is a fragment: non-empty and space-free. */
  lemma {:induction false} TokensAreFragments(s: string)
    ensures forall t :: t in Tokens(s) ==> IsFragment(t)
    decreases |s|
  {
    forall t | t in Tokens(s) ensures IsFragment(t) {
      FieldsSpaceFree(s, t);
    }
  }

  lemma {:induction false} FieldsSpaceFree(s: string, t: string)
    requires t in Fields(s)
    ensures ' ' !in t
    decreases |s|
  {
    if s != [] {
      var rest := Fields(s[1..]);
      if s[0] == ' ' {
        if t != [] { FieldsSpaceFree(s[1..], t); }
      } else if t == [s[0]] + rest[0] {
        FieldsSpaceFree(s[1..], rest[0]);
      } else {
        assert t in rest[1..];
        FieldsSpaceFree(s[1..], t);
      }
    }
  }

  /** Splitting undoes joining: fragments joined with spaces split back
      into exactly the same fragments. */
  lemma {:induction false} TokensJoinSpaces(ts: seq<string>)
    requires forall k :: 0 <= k < |ts| ==> IsFragment(ts[k])
    ensures Tokens(JoinSpaces(ts)) == ts
    decreases |ts|
  {
    if ts == [] {
    } else if |ts| == 1 {
      FieldsWord(ts[0], []);
    } else {
      FieldsWord(ts[0], JoinSpaces(ts[1..]));
      TokensJoinSpaces(ts[1..]);
    }
  }

  /** Five fragments joined by single spaces split back into those five. */
  lemma TokensOfFive(a: string, b: string, c: string, d: string, e: string)
    requires IsFragment(a) && IsFragment(b) && IsFragment(c) && IsFragment(d) && IsFragment(e)
    ensures Tokens(a + " " + (b + " " + (c + " " + (d + " " + e)))) == [a, b, c, d, e]
  {
    var ts := [a, b, c, d, e];
    assert JoinSpaces(ts[4..]) == e;
    assert JoinSpaces(ts[3..]) == d + " " + e;
    assert JoinSpaces(ts[2..]) == c + " " + (d + " " + e);
    assert JoinSpaces(ts[1..]) == b + " " + (c + " " + (d + " " + e));
    assert JoinSpaces(ts) == a + " " + (b + " " + (c + " " + (d + " " + e)));
    TokensJoinSpaces(ts);
  }

  /** The `.regex` string of the Siglent SDM3000 plugin descriptor splits
      into five fragments, each tried on its own against the instrument ID.
      (The string is a parameter fixed by the requires clause, so that the
      verifier does not evaluate `Fields` on the literal character by
      character.) */
  lemma SiglentSdm3000Fragments(regex: string)
    requires regex == "SIGLENT TECHNOLOGIES Siglent Technologies SDM3..."
    ensures Tokens(regex) == ["SIGLENT", "TECHNOLOGIES", "Siglent", "Technologies", "SDM3..."]
  {
    var ts := ["SIGLENT", "TECHNOLOGIES", "Siglent", "Technologies", "SDM3..."];
    assert regex == ts[0] + " " + (ts[1] + " " + (ts[2] + " " + (ts[3] + " " + ts[4])));
    TokensOfFive(ts[0], ts[1], ts[2], ts[3], ts[4]);
  }

  /** One call of `strtok(…, " ")` continuing at position `from` of the
      buffer: skip spaces; at the end of the string return NULL; otherwise
      the token runs up to the next space, which is overwritten so that the
      next call continues just after it. */
  method StrTok(buf: string, from: nat) returns (token: Option<string>, next: nat)
    requires from <= |buf|
    ensures from <= next <= |buf|
    ensures token.None? ==> next == |buf| && Tokens(buf[from..]) == []
    ensures token.Some? ==> from < next && Tokens(buf[from..]) == [token.value] + Tokens(buf[next..])
  {
    var i := from;
    while i < |buf| && buf[i] == ' '
      invariant from <= i <= |buf|
      invariant Tokens(buf[from..]) == Tokens(buf[i..])
    {
      assert buf[i..] == [' '] + buf[i + 1..];
      TokensSpace(buf[i + 1..]);
      i := i + 1;
    }
    if i == |buf| {
      return None, i;
    }
    var j := i;
    while j < |buf| && buf[j] != ' '
      invariant i <= j <= |buf|
      invariant ' ' !in buf[i..j]
    {
      j := j + 1;
    }
    var w := buf[i..j];
    token := Some(w);
    if j < |buf| {
      assert buf[i..] == w + [' '] + buf[j + 1..];
      FieldsWord(w, buf[j + 1..]);
      next := j + 1;
    } else {
      assert buf[i..] == w;
      FieldsWord(w, []);
      next := j;
    }
  }
}
