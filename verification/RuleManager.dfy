/** The rule operations as they run: the configuration is edited in memory, checked, and written once. */
module RuleManager {
  import opened Options
  import opened RuleStore

  // ---------------------------------------------------------------------------------------------
  // Orders
  // ---------------------------------------------------------------------------------------------

  /** Strings compare by code point, as Python's do. */
  predicate Less(a: Name, b: Name)
    decreases |a|
  {
    if b == "" then false
    else if a == "" then true
    else if a[0] != b[0] then a[0] < b[0]
    else Less(a[1..], b[1..])
  }

  lemma {:induction false} LessOrders(a: Name, b: Name, c: Name)
    ensures !Less(a, a)
    ensures Less(a, b) || Less(b, a) || a == b
    ensures Less(a, b) && Less(b, c) ==> Less(a, c)
    decreases |a|
  {
    if a != "" {
      LessOrders(a[1..], if b == "" then "" else b[1..], if c == "" then "" else c[1..]);
      if b != "" && a[0] == b[0] && a[1..] == b[1..] { assert a == [a[0]] + a[1..] && b == [b[0]] + b[1..]; }
    }
  }

  predicate Ascending(names: seq<Name>)
  {
    forall i, j | 0 <= i < j < |names| :: Less(names[i], names[j])
  }

  /** `list(dict.fromkeys(f for f in requested if f in files))` */
  function Kept(requested: seq<Name>, files: set<Name>): seq<Name>
    decreases |requested|
  {
    if requested == [] then []
    else
      var n := |requested| - 1;
      var before := Kept(requested[..n], files);
      if requested[n] in files && requested[n] !in before then before + [requested[n]] else before
  }

  /** The requested rules first, the others after them in order; every rule exactly once. */
  ghost predicate IsOrder(order: seq<Name>, requested: seq<Name>, files: set<Name>)
  {
    var kept := Kept(requested, files);
    && |kept| <= |order| && order[..|kept|] == kept && Ascending(order[|kept|..])
    && Distinct(order) && (forall name :: name in order <==> name in files)
  }

  lemma {:induction false} KeptMeans(requested: seq<Name>, files: set<Name>)
    ensures Distinct(Kept(requested, files))
    ensures forall name :: name in Kept(requested, files) <==> name in requested && name in files
    decreases |requested|
  {
    if requested != [] {
      var n := |requested| - 1;
      KeptMeans(requested[..n], files);
      assert requested == requested[..n] + [requested[n]];
    }
  }

  /** A rule order is a permutation of the rules, and there is only one for each request. */
  lemma OrderIsUnique(x: seq<Name>, y: seq<Name>, requested: seq<Name>, files: set<Name>)
    requires IsOrder(x, requested, files) && IsOrder(y, requested, files)
    ensures x == y && |x| == |files|
  {
    var k := |Kept(requested, files)|;
    KeptMeans(requested, files);
    RestHolds(x, requested, files);
    RestHolds(y, requested, files);
    AscendingIsUnique(x[k..], y[k..]);
    assert x == x[..k] + x[k..] && y == y[..k] + y[k..];
    DistinctSize(x, files);
  }

  /** In a list without repetition the two parts share nothing. */
  lemma PartsDiffer(x: seq<Name>, k: nat)
    requires Distinct(x) && k <= |x|
    ensures forall name | name in x[k..] :: name in x && name !in x[..k]
    ensures forall name | name in x :: name in x[..k] || name in x[k..]
  {
    assert x == x[..k] + x[k..];
    forall name | name in x[k..] ensures name !in x[..k] {
      var j :| 0 <= j < |x[k..]| && x[k..][j] == name;
      forall i | 0 <= i < k ensures x[..k][i] != name { assert x[i] != x[k + j]; }
    }
  }

  lemma RestHolds(x: seq<Name>, requested: seq<Name>, files: set<Name>)
    requires IsOrder(x, requested, files)
    ensures var kept := Kept(requested, files);
            forall name :: name in x[|kept|..] <==> name in files && name !in kept
  {
    PartsDiffer(x, |Kept(requested, files)|);
    hide Kept, Distinct, Ascending;
  }

  lemma JoinedIsDistinct(x: seq<Name>, y: seq<Name>)
    requires Distinct(x) && Distinct(y) && forall name | name in x :: name !in y
    ensures Distinct(x + y)
  {
    forall i, j | 0 <= i < j < |x + y| ensures (x + y)[i] != (x + y)[j] {
      if i < |x| <= j { assert x[i] in x && y[j - |x|] in y; }
    }
  }

  lemma {:induction false} AscendingIsUnique(x: seq<Name>, y: seq<Name>)
    requires Ascending(x) && Ascending(y) && forall name :: name in x <==> name in y
    ensures x == y
    decreases |x|
  {
    assert y == [] || y[0] in y;
    if x != [] {
      assert x[0] in x && x[0] in y;
      assert y[0] in x;
      FirstIsLeast(x, y[0]);
      FirstIsLeast(y, x[0]);
      LessOrders(x[0], y[0], x[0]);
      RestOf(x);
      RestOf(y);
      AscendingIsUnique(x[1..], y[1..]);
    }
  }

  lemma FirstIsLeast(x: seq<Name>, name: Name)
    requires Ascending(x) && name in x
    ensures name == x[0] || Less(x[0], name)
  {
  }

  lemma RestOf(x: seq<Name>)
    requires Ascending(x) && x != []
    ensures Ascending(x[1..]) && forall name :: name in x[1..] <==> name in x && name != x[0]
  {
    LessOrders(x[0], x[0], x[0]);
    assert x == [x[0]] + x[1..];
    forall name | name in x[1..] ensures name != x[0] {
      var j :| 1 <= j < |x| && x[j] == name;
      assert Less(x[0], x[j]);
    }
  }

  lemma {:induction false} DistinctSize(names: seq<Name>, files: set<Name>)
    requires Distinct(names) && forall name :: name in names <==> name in files
    ensures |names| == |files|
    decreases |names|
  {
    if names == [] {
      assert files == {};
    } else {
      var rest := names[1..];
      assert names == [names[0]] + rest;
      DistinctSize(rest, files - {names[0]});
    }
  }

  // ---------------------------------------------------------------------------------------------
  // The manager
  // ---------------------------------------------------------------------------------------------

  class RuleManager {
    var config: Config
    var overlay: map<Name, Text>
    const source: map<Name, Text>

    constructor (config: Config, overlay: map<Name, Text>, source: map<Name, Text>)
      ensures Disk() == RuleStore.Disk(config, overlay, source)
    {
      this.config, this.overlay, this.source := config, overlay, source;
    }

    function Disk(): RuleStore.Disk
      reads this
    {
      RuleStore.Disk(config, overlay, source)
    }

    /** The operation ran to its end, or was refused before it wrote anything. */
    twostate predicate Did(op: Op, new ok: bool)
      reads this
    {
      && ok == !Refused(old(Disk()), op)
      && Disk() == if ok then Last(old(Disk()), op) else old(Disk())
    }

    method SavePluginCode(name: Name, text: Option<Text>, small: bool, mirrored: bool) returns (ok: bool)
      modifies this
      ensures Did(Save(name, text, small, mirrored), ok)
    {
      hide NameOk, Savable, Found;
      if !NameOk(name) || text == None { return false; }
      var files := Available(Disk());
      if files == None { return false; }
      if name !in files.value && |files.value| >= MAX_PLUGINS { return false; }
      var edited := config.(sources := config.sources[name := text.value]);
      edited := edited.(deleted := Remove(edited.deleted, name));
      if !Savable(edited, small) { return false; }
      config := edited;
      if mirrored { overlay := overlay[name := text.value]; }
      return true;
    }

    method CreatePlugin(name: Name, text: Option<Text>, small: bool, mirrored: bool) returns (ok: bool)
      modifies this
      ensures Did(Create(name, text, small, mirrored), ok)
    {
      hide NameOk, Savable, Found;
      if !NameOk(name) || text == None { return false; }
      var files := Available(Disk());
      if files == None { return false; }
      if name in files.value { return false; }
      if |files.value| >= MAX_PLUGINS { return false; }
      var edited := config.(sources := config.sources[name := text.value]);
      edited := edited.(deleted := Remove(edited.deleted, name));
      if name !in edited.order { edited := edited.(order := edited.order + [name]); }
      edited := edited.(enabled := edited.enabled[name := true]);
      if !Savable(edited, small) { return false; }
      config := edited;
      if mirrored { overlay := overlay[name := text.value]; }
      return true;
    }

    method DeletePlugin(name: Name, small: bool, smallAgain: bool) returns (ok: bool)
      modifies this
      ensures Did(Delete(name, small, smallAgain), ok)
    {
      hide NameOk, Savable, Shown;
      if Resolve(Disk(), name) == None { return false; }
      var edited := config;
      if name !in edited.deleted { edited := edited.(deleted := edited.deleted + [name]); }
      edited := edited.(order := Without(edited.order, name));
      edited := edited.(enabled := edited.enabled - {name});
      edited := edited.(sources := edited.sources - {name});
      if !Savable(edited, small) { return false; }
      config := edited;
      if name in overlay {
        overlay := overlay - {name};
      } else {
        assert overlay - {name} == overlay;
      }
      if name !in source {
        edited := edited.(deleted := Remove(edited.deleted, name));
        if Savable(edited, smallAgain) { config := edited; }
      }
      return true;
    }

    /** The configured order becomes the requested one, completed by the other rules in order. */
    method ReorderPlugins(requested: seq<Name>, small: bool) returns (ok: bool, ghost order: seq<Name>)
      modifies this
      ensures ok ==> Available(old(Disk())).Some? && IsOrder(order, requested, Available(old(Disk())).value)
      ensures ok ==> Did(Reorder(order, small), true) && config.order == order
      ensures !ok ==> Disk() == old(Disk())
      ensures !ok <==> |requested| > MAX_PLUGINS || !AllNamesOk(requested) || Refused(old(Disk()), Reorder(order, small))
    {
      hide NameOk, Savable, Found;
      order := [];
      if |requested| > MAX_PLUGINS || !AllNamesOk(requested) { return false, []; }
      var files := Available(Disk());
      if files == None { return false, []; }
      var whole := OrderOf(requested, files.value);
      order := whole;
      var edited := config.(order := whole);
      if !Savable(edited, small) { return false, whole; }
      config := edited;
      return true, whole;
    }

    static method OrderOf(requested: seq<Name>, files: set<Name>) returns (order: seq<Name>)
      ensures IsOrder(order, requested, files)
    {
      var kept := [];
      for n := 0 to |requested|
        invariant kept == Kept(requested[..n], files)
      {
        assert requested[..n + 1][..n] == requested[..n];
        if requested[n] in files && requested[n] !in kept { kept := kept + [requested[n]]; }
      }
      assert requested[..|requested|] == requested;
      KeptMeans(requested, files);
      var rest := Sorted(files - set name | name in kept);
      order := kept + rest;
      assert order[|kept|..] == rest;
      AscendingIsDistinct(rest);
      JoinedIsDistinct(kept, rest);
    }

    /** `sorted(names)` by inserting one name after the other. */
    static method Sorted(names: set<Name>) returns (sorted: seq<Name>)
      ensures Ascending(sorted) && forall name :: name in sorted <==> name in names
    {
      sorted := [];
      var todo := names;
      while todo != {}
        invariant todo <= names && Ascending(sorted)
        invariant forall name :: name in sorted <==> name in names && name !in todo
        decreases |todo|
      {
        var name :| name in todo;
        todo := todo - {name};
        sorted := Insert(sorted, name);
      }
    }

    static method Insert(sorted: seq<Name>, name: Name) returns (more: seq<Name>)
      requires Ascending(sorted) && name !in sorted
      ensures Ascending(more) && forall other :: other in more <==> other in sorted || other == name
    {
      var at := 0;
      while at < |sorted| && Less(sorted[at], name)
        invariant at <= |sorted| && forall i | 0 <= i < at :: Less(sorted[i], name)
      {
        at := at + 1;
      }
      more := sorted[..at] + [name] + sorted[at..];
      InsertedAscends(sorted, name, at);
    }
  }

  lemma InsertedAscends(sorted: seq<Name>, name: Name, at: nat)
    requires Ascending(sorted) && name !in sorted && at <= |sorted|
    requires forall i | 0 <= i < at :: Less(sorted[i], name)
    requires at < |sorted| ==> !Less(sorted[at], name)
    ensures var more := sorted[..at] + [name] + sorted[at..];
            Ascending(more) && forall other :: other in more <==> other in sorted || other == name
  {
    hide Less;
    var more := sorted[..at] + [name] + sorted[at..];
    forall j | at <= j < |sorted| ensures Less(name, sorted[j]) {
      LessOrders(name, sorted[at], sorted[j]);
    }
    forall i, j | 0 <= i < j < |more| ensures Less(more[i], more[j]) {
      if i < at < j { LessOrders(sorted[i], name, more[j]); }
    }
    assert sorted == sorted[..at] + sorted[at..];
  }

  lemma AscendingIsDistinct(names: seq<Name>)
    requires Ascending(names)
    ensures Distinct(names)
  {
    hide Less;
    forall i, j | 0 <= i < j < |names| ensures names[i] != names[j] {
      LessOrders(names[i], names[i], names[i]);
    }
  }
}
