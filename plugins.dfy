/** Plugin descriptors, the shape of the plugin list, the autodetection
    score and what the winner of the autodetection is. */
module Plugins {
  import opened Wrappers
  import opened Tokenize
  import opened Matcher

  /** `PLUGIN_LIST_SIZE_MAX`: the number of slots in the plugin list. */
  const Capacity: nat := 50

  /** `struct screenshot_plugin` without its function pointer: a NULL
      `.regex` is `None`. */
  datatype Plugin = Plugin(name: string, description: string, regex: Option<string>)

  // ---------------------------------------------------------------------
  // The plugin list: slots, a prefix of them occupied

  /** No occupied slot follows an empty one. */
  predicate PrefixShaped(slots: seq<Option<Plugin>>)
  {
    forall i, j :: 0 <= i < j < |slots| && slots[i].None? ==> slots[j].None?
  }

  /** The plugins a scan `while (i < MAX && plugin_list[i] != NULL)` visits:
      the occupied slots before the first empty one. */
  function Registered(slots: seq<Option<Plugin>>): (ps: seq<Plugin>)
    ensures |ps| <= |slots|
  {
    if slots == [] || slots[0].None? then []
    else [slots[0].value] + Registered(slots[1..])
  }

  /** `Registered` is the run of occupied slots at the front, stopped by an
      empty slot or by the end of the list. */
  lemma {:induction false} RegisteredIsLeadingRun(slots: seq<Option<Plugin>>)
    ensures var ps := Registered(slots);
      (forall k :: 0 <= k < |ps| ==> slots[k] == Some(ps[k])) &&
      (|ps| < |slots| ==> slots[|ps|].None?)
    decreases |slots|
  {
    if slots != [] && slots[0].Some? {
      RegisteredIsLeadingRun(slots[1..]);
    }
  }

  /** Conversely, a leading run of occupied slots followed by an empty slot
      (or the end) is what `Registered` gives. */
  lemma {:induction false} RegisteredOfRun(slots: seq<Option<Plugin>>, ps: seq<Plugin>)
    requires |ps| <= |slots|
    requires forall k :: 0 <= k < |ps| ==> slots[k] == Some(ps[k])
    requires |ps| < |slots| ==> slots[|ps|].None?
    ensures Registered(slots) == ps
    decreases |slots|
  {
    if ps != [] {
      RegisteredOfRun(slots[1..], ps[1..]);
    }
  }

  /** In a prefix-shaped list every slot past the registered plugins is
      empty, so the scans see every plugin in the list. */
  lemma RegisteredIsAll(slots: seq<Option<Plugin>>)
    requires PrefixShaped(slots)
    ensures forall k :: |Registered(slots)| <= k < |slots| ==> slots[k].None?
  {
    RegisteredIsLeadingRun(slots);
  }

  // ---------------------------------------------------------------------
  // Scoring and the winner

  /** A plugin's score against the ID: the number of fragments of its regex
      string that match; a plugin without regex is never a candidate. */
  function Score(e: Engine, id: string, p: Plugin): (n: nat)
    ensures p.regex.None? ==> n == 0
    ensures p.regex.Some? ==> n <= |Tokens(p.regex.value)|
  {
    match p.regex
    case None => 0
    case Some(rx) => MatchCount(e, id, Tokens(rx))
  }

  /** The score of every plugin, in registration order. */
  function Scores(e: Engine, id: string, ps: seq<Plugin>): (sc: seq<nat>)
    ensures |sc| == |ps|
    ensures forall k :: 0 <= k < |ps| ==> sc[k] == Score(e, id, ps[k])
  {
    seq(|ps|, k requires 0 <= k < |ps| => Score(e, id, ps[k]))
  }

  /** `w` is the outcome of the autodetection over the scores `sc`: -1 when
      nobody scored, otherwise the first index of the highest score, which
      is then at least one. */
  predicate IsWinner(sc: seq<nat>, w: int)
  {
    if w == -1 then
      forall k :: 0 <= k < |sc| ==> sc[k] == 0
    else
      0 <= w < |sc| && sc[w] >= 1 &&
      (forall k :: 0 <= k < |sc| ==> sc[k] <= sc[w]) &&
      (forall k :: 0 <= k < w ==> sc[k] < sc[w])
  }

  /** One step of the running maximum: the plugin at index `i` takes over
      only when it scores strictly more than the winner so far. */
  lemma WinnerStep(sc: seq<nat>, i: nat, w: int, best: nat)
    requires i < |sc| && IsWinner(sc[..i], w)
    requires best == if w == -1 then 0 else sc[w]
    ensures IsWinner(sc[..i + 1], if sc[i] > best then i else w)
  {
    var next := sc[..i + 1];
    assert forall k :: 0 <= k < i ==> next[k] == sc[..i][k];
    assert next[i] == sc[i];
  }

  /** The winner is determined by the scores: no two outcomes fit. */
  lemma WinnerUnique(sc: seq<nat>, w1: int, w2: int)
    requires IsWinner(sc, w1) && IsWinner(sc, w2)
    ensures w1 == w2
  {
  }

  /** First-registered precedence: of two plugins with the same score the
      later one never wins. */
  lemma TieGoesToFirst(sc: seq<nat>, w: int, i: nat, j: nat)
    requires IsWinner(sc, w)
    requires i < j < |sc| && sc[i] == sc[j]
    ensures w != j
  {
  }

  // ---------------------------------------------------------------------
  // Lookup by name

  /** `r` is the outcome of looking `name` up in `ps`: the first plugin
      with exactly that name, or `None` when no plugin has it. */
  predicate IsLookup(ps: seq<Plugin>, name: string, r: Option<nat>)
  {
    match r
    case None => forall k :: 0 <= k < |ps| ==> ps[k].name != name
    case Some(i) =>
      i < |ps| && ps[i].name == name && forall k :: 0 <= k < i ==> ps[k].name != name
  }

  /** The lookup has exactly one outcome: never two plugins, and never a
      plugin as well as "not found". */
  lemma LookupUnique(ps: seq<Plugin>, name: string, r1: Option<nat>, r2: Option<nat>)
    requires IsLookup(ps, name, r1) && IsLookup(ps, name, r2)
    ensures r1 == r2
  {
  }

  // ---------------------------------------------------------------------
  // The plugin listing

  /** `n` spaces; none when `n` is zero or negative. */
  function Spaces(n: int): (s: string)
    ensures |s| == if n <= 0 then 0 else n
    ensures forall k :: 0 <= k < |s| ==> s[k] == ' '
  {
    if n <= 0 then [] else Spaces(n - 1) + " "
  }

  /** The length of the longest name, 0 for no plugins. */
  function MaxNameLength(ps: seq<Plugin>): nat
  {
    if ps == [] then 0
    else
      var m := MaxNameLength(ps[..|ps| - 1]);
      var n := |ps[|ps| - 1].name|;
      if m < n then n else m
  }

  /** The longest name is as long as every name and as long as some name. */
  lemma {:induction false} MaxNameLengthIsMax(ps: seq<Plugin>)
    ensures forall k :: 0 <= k < |ps| ==> |ps[k].name| <= MaxNameLength(ps)
    ensures ps != [] ==> exists k :: 0 <= k < |ps| && |ps[k].name| == MaxNameLength(ps)
    decreases |ps|
  {
    if ps != [] {
      var init := ps[..|ps| - 1];
      MaxNameLengthIsMax(init);
      assert forall k :: 0 <= k < |init| ==> init[k] == ps[k];
      if init != [] && MaxNameLength(ps) == MaxNameLength(init) {
        var k :| 0 <= k < |init| && |init[k].name| == MaxNameLength(init);
        assert |ps[k].name| == MaxNameLength(ps);
      } else {
        assert |ps[|ps| - 1].name| == MaxNameLength(ps);
      }
    }
  }

  /** The header: the word "Name" right-aligned to the name column. */
  function Header(width: nat): string
  {
    Spaces(width - 4) + "Name   Description\n"
  }

  /** One row: the name right-aligned to `width`, three spaces, the
      description and a newline. */
  function Row(p: Plugin, width: nat): string
  {
    Spaces(width - |p.name|) + p.name + "   " + p.description + "\n"
  }

  /** The rows of `ps` in order. */
  function Rows(ps: seq<Plugin>, width: nat): string
  {
    if ps == [] then [] else Rows(ps[..|ps| - 1], width) + Row(ps[|ps| - 1], width)
  }

  /** Printing the padding, the name and the rest of the row piece by piece
      prints the row. */
  lemma RowPieces(line: string, p: Plugin, width: nat)
    ensures line + Spaces(width - |p.name|) + p.name + "   " + p.description + "\n"
         == line + Row(p, width)
  {
  }

  /** Rows of one more plugin: its row is added at the end. */
  lemma RowsSnoc(ps: seq<Plugin>, i: nat, width: nat)
    requires i < |ps|
    ensures Rows(ps[..i + 1], width) == Rows(ps[..i], width) + Row(ps[i], width)
  {
    assert ps[..i + 1][..i] == ps[..i];
  }

  /** What `screenshot_list_plugins` prints for the registered plugins. */
  function Listing(ps: seq<Plugin>): string
  {
    var width := MaxNameLength(ps);
    Header(width) + Rows(ps, width)
  }

  /** Concatenation is associative. */
  lemma AppendAssoc<T>(a: seq<T>, b: seq<T>, c: seq<T>)
    ensures (a + b) + c == a + (b + c)
  {
  }

  /** Rows of a concatenation are the rows of the parts. */
  lemma {:induction false} RowsAppend(a: seq<Plugin>, b: seq<Plugin>, width: nat)
    ensures Rows(a + b, width) == Rows(a, width) + Rows(b, width)
    decreases |b|
  {
    if b == [] {
      assert a + b == a;
    } else {
      var b0 := b[..|b| - 1];
      var last := Row(b[|b| - 1], width);
      assert (a + b)[..|a + b| - 1] == a + b0;
      assert (a + b)[|a + b| - 1] == b[|b| - 1];
      assert Rows(a + b, width) == Rows(a + b0, width) + last;
      RowsAppend(a, b0, width);
      AppendAssoc(Rows(a, width), Rows(b0, width), last);
    }
  }

  /** Row `k` of the listing sits right after the header and the rows of
      the plugins registered before it. */
  lemma {:induction false} ListingRowAt(ps: seq<Plugin>, k: nat)
    requires k < |ps|
    ensures var width := MaxNameLength(ps);
      var at := |Header(width)| + |Rows(ps[..k], width)|;
      var row := Row(ps[k], width);
      at + |row| <= |Listing(ps)| && Listing(ps)[at .. at + |row|] == row
  {
    var width := MaxNameLength(ps);
    var p := ps[k];
    assert ps == ps[..k] + [p] + ps[k + 1..];
    RowsAppend(ps[..k] + [p], ps[k + 1..], width);
    RowsAppend(ps[..k], [p], width);
    assert Rows([p], width) == Row(p, width) by {
      assert [p][..0] == [];
    }
    var row := Row(p, width);
    assert Listing(ps) == (Header(width) + Rows(ps[..k], width)) + row + Rows(ps[k + 1..], width);
  }

  /** Inside a row whose name fits the column, the name ends exactly at
      column `width`, followed by three spaces, the description and a
      newline. */
  lemma RowLayout(p: Plugin, width: nat)
    requires |p.name| <= width
    ensures var row := Row(p, width);
      |row| == width + 3 + |p.description| + 1 &&
      row[..width] == Spaces(width - |p.name|) + p.name &&
      row[width - |p.name| .. width] == p.name &&
      row[width .. width + 3] == "   " &&
      row[width + 3 .. width + 3 + |p.description|] == p.description &&
      row[width + 3 + |p.description|] == '\n'
  {
    var pad := Spaces(width - |p.name|);
    var a := pad + p.name;
    var b := a + "   ";
    var c := b + p.description;
    var row := Row(p, width);
    assert row == c + "\n";
    assert |a| == width;
    assert a[|pad|..] == p.name;
    assert b[..|a|] == a && b[|a|..] == "   ";
    assert c[..|b|] == b && c[|b|..] == p.description;
    assert row[..|c|] == c && row[|c|] == '\n';
    SliceOfPrefix(row, c, |b|, |c|);
    SliceOfPrefix(row, c, 0, |b|);
    SliceOfPrefix(row, b, |a|, |b|);
    SliceOfPrefix(row, b, 0, |a|);
    SliceOfPrefix(row, a, |pad|, |a|);
  }

  /** A slice within a prefix is the same slice of that prefix. */
  lemma SliceOfPrefix(s: string, t: string, i: nat, j: nat)
    requires |t| <= |s| && s[..|t|] == t && i <= j <= |t|
    ensures s[i..j] == t[i..j]
  {
    assert forall k :: i <= k < j ==> s[k] == s[..|t|][k];
  }

  /** Every row of the listing is aligned to the longest name: in the row
      of plugin `k` the name ends exactly at column `MaxNameLength(ps)`,
      followed by three spaces and the description. */
  lemma ListingAligned(ps: seq<Plugin>, k: nat)
    requires k < |ps|
    ensures var width := MaxNameLength(ps);
      var row := Row(ps[k], width);
      |ps[k].name| <= width &&
      row[width - |ps[k].name| .. width] == ps[k].name &&
      row[width .. width + 3] == "   " &&
      row[width + 3 .. |row| - 1] == ps[k].description
  {
    MaxNameLengthIsMax(ps);
    RowLayout(ps[k], MaxNameLength(ps));
  }

  /** The header puts "Name" in the name column when the longest name has at
      least four characters, and starts at the margin otherwise. */
  lemma ListingHeader(ps: seq<Plugin>)
    ensures var width := MaxNameLength(ps);
      var pad := if width >= 4 then width - 4 else 0;
      Listing(ps)[..pad] == Spaces(pad) &&
      Listing(ps)[pad .. pad + 19] == "Name   Description\n"
  {
  }
}
