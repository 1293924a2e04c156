/** The plugin list of the screenshot tool and the operations on it:
    registration, listing, autodetection, lookup by name, and the selection
    that `screenshot()` performs before dispatching to the chosen plugin. */
module Screenshot {
  import opened Wrappers
  import opened Tokenize
  import opened Matcher
  import opened Plugins
  import opened Identity

  /** The static array `plugin_list`: `Capacity` slots, NULL (`None`) until
      a plugin is registered into them. */
  class Registry {
    var slots: array<Option<Plugin>>

    /** The list has its fixed size and its plugins form a prefix. */
    ghost predicate Valid()
      reads this, slots
    {
      slots.Length == Capacity && PrefixShaped(slots[..])
    }

    /** The registered plugins in registration order. */
    ghost function Plugins(): seq<Plugin>
      reads this, slots
    {
      Registered(slots[..])
    }

    /** The zero-initialised static array: every slot empty. */
    constructor ()
      ensures Valid() && fresh(slots) && Plugins() == []
    {
      slots := new Option<Plugin>[Capacity](_ => None);
    }

    /** `screenshot_plugin_register`: put the plugin into the first empty
        slot; when there is none, fail with "plugin list full" and change
        nothing. The answer is the slot written. */
    method Register(p: Plugin) returns (r: Result<nat, Failure>)
      requires Valid()
      modifies slots
      ensures Valid()
      ensures old(|Plugins()|) < Capacity ==>
        r == Ok(old(|Plugins()|)) && Plugins() == old(Plugins()) + [p]
      ensures old(|Plugins()|) == Capacity ==>
        r == Err(PluginListFull) && Plugins() == old(Plugins())
      ensures r.Ok? ==> slots[r.value] == Some(p)
      ensures forall k :: 0 <= k < slots.Length && !(r.Ok? && k == r.value) ==> slots[k] == old(slots[k])
    {
      ghost var before := slots[..];
      ghost var ps := Registered(before);
      RegisteredIsLeadingRun(before);
      RegisteredIsAll(before);
      var i := 0;
      while i < Capacity && slots[i].Some?
        invariant 0 <= i <= |ps|
      {
        i := i + 1;
      }
      if i >= Capacity {
        return Err(PluginListFull);
      }
      slots[i] := Some(p);
      RegisteredOfRun(slots[..], ps + [p]);
      r := Ok(i);
    }

    /** `screenshot_register_plugins`: register the five built-in plugins in
        their fixed order. A full list stops the run at the plugin that did
        not fit. */
    method RegisterPlugins(keysightIv2000x: Plugin, rigol1000: Plugin, rigol2000: Plugin,
                           rsHmo1000: Plugin, tektronix2000: Plugin)
      returns (r: Result<(), Failure>)
      requires Valid()
      modifies slots
      ensures Valid()
      ensures r.Ok? <==> old(|Plugins()|) + 5 <= Capacity
      ensures r.Ok? ==>
        Plugins() == old(Plugins()) + [keysightIv2000x, rigol1000, rigol2000, rsHmo1000, tektronix2000]
      ensures r.Err? ==>
        r.error == PluginListFull &&
        Plugins() == old(Plugins()) + [keysightIv2000x, rigol1000, rigol2000, rsHmo1000, tektronix2000][..Capacity - old(|Plugins()|)]
    {
      ghost var builtins := [keysightIv2000x, rigol1000, rigol2000, rsHmo1000, tektronix2000];
      ghost var start := Plugins();
      var s := Register(keysightIv2000x);
      if s.Err? {
        assert builtins[..0] == [];
        return Err(s.error);
      }
      assert builtins[..1] == [keysightIv2000x];
      s := Register(rigol1000);
      if s.Err? {
        return Err(s.error);
      }
      AppendAssoc(start, builtins[..1], [rigol1000]);
      assert builtins[..2] == builtins[..1] + [rigol1000];
      s := Register(rigol2000);
      if s.Err? {
        return Err(s.error);
      }
      AppendAssoc(start, builtins[..2], [rigol2000]);
      assert builtins[..3] == builtins[..2] + [rigol2000];
      s := Register(rsHmo1000);
      if s.Err? {
        return Err(s.error);
      }
      AppendAssoc(start, builtins[..3], [rsHmo1000]);
      assert builtins[..4] == builtins[..3] + [rsHmo1000];
      s := Register(tektronix2000);
      if s.Err? {
        return Err(s.error);
      }
      AppendAssoc(start, builtins[..4], [tektronix2000]);
      assert builtins == builtins[..4] + [tektronix2000];
      r := Ok(());
    }

    /** The first loop of `screenshot_list_plugins`: the length of the
        longest registered name. */
    method LongestNameLength() returns (lengthMax: nat)
      requires Valid()
      ensures lengthMax == MaxNameLength(Plugins())
    {
      ghost var ps := Plugins();
      RegisteredIsLeadingRun(slots[..]);
      var i := 0;
      lengthMax := 0;
      while i < Capacity && slots[i].Some?
        invariant 0 <= i <= |ps|
        invariant lengthMax == MaxNameLength(ps[..i])
      {
        var length := |slots[i].value.name|;
        assert ps[..i + 1][..i] == ps[..i];
        if lengthMax < length {
          lengthMax := length;
        }
        i := i + 1;
      }
      assert ps[..i] == ps;
    }

    /** `screenshot_list_plugins`: the text printed for the registered
        plugins, a header and then one row per plugin in registration
        order. */
    method ListPlugins() returns (out: string)
      requires Valid()
      ensures out == Listing(Plugins())
    {
      ghost var ps := Plugins();
      var lengthMax := LongestNameLength();
      out := PrintHeader(lengthMax);
      var i := 0;
      while i < Capacity && slots[i].Some?
        invariant 0 <= i <= |ps|
        invariant out == Header(lengthMax) + Rows(ps[..i], lengthMax)
      {
        var p := slots[i].value;
        assert i < |ps| && ps[i] == p && |p.name| <= lengthMax by {
          RegisteredIsLeadingRun(slots[..]);
          MaxNameLengthIsMax(ps);
        }
        out := PrintRow(out, p, lengthMax);
        RowsSnoc(ps, i, lengthMax);
        AppendAssoc(Header(lengthMax), Rows(ps[..i], lengthMax), Row(p, lengthMax));
        i := i + 1;
      }
      assert i == |ps| by {
        RegisteredIsLeadingRun(slots[..]);
      }
      assert ps[..i] == ps;
    }

    /** The autodetection loop of `screenshot()`: score every registered
        plugin against the ID and keep the first one with the highest
        positive score; -1 when no plugin scores. */
    method Autodetect(e: Engine, id: string) returns (winner: int)
      requires Valid()
      ensures IsWinner(Scores(e, id, Plugins()), winner)
    {
      ghost var ps := Plugins();
      ghost var sc := Scores(e, id, ps);
      RegisteredIsLeadingRun(slots[..]);
      var i := 0;
      var matchCountMax := 0;
      winner := -1;
      while i < Capacity && slots[i].Some?
        invariant 0 <= i <= |ps|
        invariant IsWinner(sc[..i], winner)
        invariant winner == -1 ==> matchCountMax == 0
        invariant winner != -1 ==> matchCountMax == sc[winner]
      {
        var p := slots[i].value;
        assert p == ps[i];
        WinnerStep(sc, i, winner, matchCountMax);
        // Skip a plugin without regex
        if p.regex.None? {
          i := i + 1;
          continue;
        }
        var matchCount := CountMatches(e, id, p.regex.value);
        assert matchCount == sc[i];
        // The plugin with most matches wins
        if matchCount > matchCountMax {
          winner := i;
          matchCountMax := matchCount;
        }
        i := i + 1;
      }
      assert sc[..i] == sc;
    }

    /** The name lookup of `screenshot()`: the first registered plugin whose
        name equals `name` exactly. */
    method FindByName(name: string) returns (r: Option<nat>)
      requires Valid()
      ensures IsLookup(Plugins(), name, r)
    {
      ghost var ps := Plugins();
      RegisteredIsLeadingRun(slots[..]);
      var i := 0;
      while i < Capacity && slots[i].Some?
        invariant 0 <= i <= |ps|
        invariant forall k :: 0 <= k < i ==> ps[k].name != name
      {
        if slots[i].value.name == name {
          return Some(i);
        }
        i := i + 1;
      }
      r := None;
    }

    /** `screenshot()` up to the dispatch: check the address, then either
        look the given plugin name up, or strip the instrument's reply to
        "*IDN?" (`None` when connecting or receiving failed) and autodetect.
        The answer is the index of the plugin whose handler would be
        called. */
    method Screenshot(e: Engine, address: string, pluginName: string, idReply: Option<string>)
      returns (r: Result<nat, Failure>)
      requires Valid()
      ensures |address| == 0 ==> r == Err(MissingAddress)
      ensures |address| > 0 && |pluginName| > 0 ==>
        (r.Ok? ==> IsLookup(Plugins(), pluginName, Some(r.value))) &&
        (r.Err? ==> r.error == UnknownPluginName && IsLookup(Plugins(), pluginName, None))
      ensures |address| > 0 && |pluginName| == 0 && idReply.None? ==>
        r == Err(InstrumentIdUnavailable)
      ensures |address| > 0 && |pluginName| == 0 && idReply.Some? ==>
        var sc := Scores(e, StripNewline(idReply.value), Plugins());
        (r.Ok? ==> IsWinner(sc, r.value)) &&
        (r.Err? ==> r.error == AutodetectFailed && IsWinner(sc, -1))
    {
      if |address| == 0 {
        return Err(MissingAddress);
      }
      if |pluginName| == 0 {
        if idReply.None? {
          return Err(InstrumentIdUnavailable);
        }
        var id := StripNewline(idReply.value);
        var winner := Autodetect(e, id);
        if winner == -1 {
          return Err(AutodetectFailed);
        }
        r := Ok(winner);
      } else {
        var found := FindByName(pluginName);
        if found.None? {
          return Err(UnknownPluginName);
        }
        r := Ok(found.value);
      }
    }
  }

  /** The header of the listing: `length_max - 4` spaces (none when that is
      not positive), then the column titles. */
  method PrintHeader(lengthMax: nat) returns (out: string)
    ensures out == Header(lengthMax)
  {
    out := [];
    var j := 0;
    while j < lengthMax - 4
      invariant 0 <= j <= if lengthMax >= 4 then lengthMax - 4 else 0
      invariant out == Spaces(j)
    {
      out := out + " ";
      j := j + 1;
    }
    out := out + "Name   Description\n";
  }

  /** One row of the listing appended to `out`: `length_max - strlen(name)`
      spaces, the name, three spaces, the description and a newline. */
  method PrintRow(out: string, p: Plugin, lengthMax: nat) returns (result: string)
    requires |p.name| <= lengthMax
    ensures result == out + Row(p, lengthMax)
  {
    result := out;
    var j := 0;
    while j < lengthMax - |p.name|
      invariant 0 <= j <= lengthMax - |p.name|
      invariant result == out + Spaces(j)
    {
      result := result + " ";
      j := j + 1;
    }
    result := result + p.name;
    result := result + "   " + p.description + "\n";
    RowPieces(out, p, lengthMax);
  }
}
