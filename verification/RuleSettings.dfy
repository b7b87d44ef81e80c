/**
 The switches and the order of the rules, and which operations are accepted. Each is said of the visible
 rules and the sizes of the configuration, for every operation and every crash point.
 */
module RuleSettings {
  import opened Options
  import opened RuleStore
  import opened RuleDirectories

  // ---------------------------------------------------------------------------------------------
  // What is accepted
  // ---------------------------------------------------------------------------------------------

  /** The manifest takes this text: one more of at most 64 rules, of at most 65536 bytes. */
  predicate Fits(d: Disk, name: Name, text: Option<Text>)
  {
    NameOk(name) && text.Some? && Bytes(text.value) <= 65536 && (name in d.config.sources || |d.config.sources| < 64)
  }

  /** Switching this name keeps the table of switches within 64. */
  predicate SwitchFits(d: Disk, name: Name)
  {
    name in d.config.enabled || |d.config.enabled| < 64
  }

  /** What an operation needs, beyond a configuration file of allowed size. */
  predicate Accepted(d: Disk, op: Op)
  {
    match op
    case Save(name, text, small, _) =>
      small && Fits(d, name, text) && !Seized(d) && (name in Visible(d) || |Visible(d)| < 64)
    case Create(name, text, small, _) =>
      && small && Fits(d, name, text) && !Seized(d) && name !in Visible(d) && |Visible(d)| < 64
      && SwitchFits(d, name) && (name in d.config.order || |d.config.order| < 64)
    case Delete(name, small, _) => small && name in Visible(d) && |d.config.deleted| < 64
    case Toggle(name, on, valid, small) => small && name in Visible(d) && (on ==> valid) && SwitchFits(d, name)
    case Reorder(order, small) => small && !Seized(d) && |order| <= 64 && forall name <- order :: NameOk(name)
  }

  lemma VisibleNamesAreOk(d: Disk)
    requires Sane(d)
    ensures forall name | name in Visible(d) :: NameOk(name) && name !in d.config.deleted
  {
    hide NameOk, Bytes;
  }

  lemma NamesIn(names: seq<Name>)
    ensures AllNamesOk(names) <==> forall name <- names :: NameOk(name)
  {
    hide NameOk;
    if AllNamesOk(names) {
      forall name | name in names ensures NameOk(name) {
        var i :| 0 <= i < |names| && names[i] == name;
      }
    }
  }

  lemma CommittedSavable(d: Disk, name: Name, text: Option<Text>)
    requires Sane(d) && NameOk(name) && text.Some?
    ensures ConfigOk(Committed(d.config, name, text.value)) <==> Fits(d, name, text)
    ensures |d.config.sources[name := text.value]| <= 64 <==> name in d.config.sources || |d.config.sources| < 64
  {
    hide NameOk, Bytes, AllNamesOk, Remove, Files;
    RemoveKeepsOk(d.config.deleted, name);
    UpdatedMap(d.config.sources, name, text.value);
    var after := Committed(d.config, name, text.value);
    assert after.sources[name] == text.value;
  }

  lemma CreatedSavable(d: Disk, name: Name, text: Option<Text>)
    requires Sane(d) && NameOk(name) && text.Some?
    ensures ConfigOk(CreatedConfig(d.config, name, text.value)) <==>
              Fits(d, name, text) && SwitchFits(d, name) && (name in d.config.order || |d.config.order| < 64)
  {
    CommittedSavable(d, name, text);
    UpdatedMap(d.config.enabled, name, true);
    OneMoreOk(d.config.order, name);
    hide NameOk, Bytes, Remove, Files, Fits, AllNamesOk;
  }

  lemma DeletedSavable(d: Disk, name: Name)
    requires Sane(d) && name in Visible(d)
    ensures ConfigOk(DeletedConfig(d.config, name)) <==> |d.config.deleted| < 64
  {
    VisibleNamesAreOk(d);
    WithoutKeepsOk(d.config.order, name);
    OneMoreOk(d.config.deleted, name);
    SmallerMap(d.config.enabled, name);
    SmallerMap(d.config.sources, name);
    hide NameOk, Bytes, Without, Files, AllNamesOk, Visible;
  }

  lemma SwitchedSavable(d: Disk, name: Name, on: bool)
    requires Sane(d) && NameOk(name)
    ensures ConfigOk(d.config.(enabled := d.config.enabled[name := on])) <==> SwitchFits(d, name)
  {
    UpdatedMap(d.config.enabled, name, on);
    hide NameOk, Bytes, Files, AllNamesOk;
  }

  lemma AvailableExactly(d: Disk)
    requires Sane(d)
    ensures Available(d).Some? <==> !Seized(d)
    ensures Available(d).Some? ==> Available(d).value == Visible(d).Keys && |Available(d).value| == |Visible(d)|
  {
    FilesAreTheVisibleRules(d, "");
    assert |Visible(d).Keys| == |Visible(d)|;
    hide NameOk, Visible, Found, ConfigOk;
  }

  lemma ResolvedExactly(d: Disk, name: Name)
    requires Sane(d)
    ensures Resolve(d, name).Some? <==> name in Visible(d)
  {
    VisibleNamesAreOk(d);
    if NameOk(name) { FilesAreTheVisibleRules(d, name); }
    hide NameOk, Visible, Shown, Sane;
  }

  lemma SaveAccepted(d: Disk, op: Op)
    requires Sane(d) && op.Save?
    ensures !Refused(d, op) <==> Accepted(d, op)
  {
    AvailableExactly(d);
    if NameOk(op.name) && op.text.Some? { CommittedSavable(d, op.name, op.text); }
    hide NameOk, ConfigOk, Visible, Available, Seized, Bytes, Committed, Sane;
  }

  lemma CreateAccepted(d: Disk, op: Op)
    requires Sane(d) && op.Create?
    ensures !Refused(d, op) <==> Accepted(d, op)
  {
    AvailableExactly(d);
    if NameOk(op.name) && op.text.Some? { CreatedSavable(d, op.name, op.text); }
    hide NameOk, ConfigOk, Visible, Available, Seized, Bytes, CreatedConfig, Sane;
  }

  lemma DeleteAccepted(d: Disk, op: Op)
    requires Sane(d) && op.Delete?
    ensures !Refused(d, op) <==> Accepted(d, op)
  {
    ResolvedExactly(d, op.name);
    if op.name in Visible(d) { DeletedSavable(d, op.name); }
    hide NameOk, ConfigOk, Visible, Resolve, DeletedConfig, Sane;
  }

  lemma ToggleAccepted(d: Disk, op: Op)
    requires Sane(d) && op.Toggle?
    ensures !Refused(d, op) <==> Accepted(d, op)
  {
    VisibleNamesAreOk(d);
    ResolvedExactly(d, op.name);
    if op.name in Visible(d) { SwitchedSavable(d, op.name, op.on); }
    hide NameOk, ConfigOk, Visible, Resolve, Sane;
  }

  lemma ReorderAccepted(d: Disk, op: Op)
    requires Sane(d) && op.Reorder?
    ensures !Refused(d, op) <==> Accepted(d, op)
  {
    AvailableExactly(d);
    NamesIn(op.order);
    assert ConfigOk(d.config.(order := op.order)) <==> |op.order| <= 64 && AllNamesOk(op.order);
    hide NameOk, ConfigOk, Visible, Available, Seized, Sane, AllNamesOk;
  }

  /** On every sane disk an operation goes through exactly if it is accepted in this sense. */
  lemma AcceptedExactly(d: Disk, op: Op)
    requires Sane(d)
    ensures !Refused(d, op) <==> Accepted(d, op)
  {
    match op
    case Save(_, _, _, _) => SaveAccepted(d, op);
    case Create(_, _, _, _) => CreateAccepted(d, op);
    case Delete(_, _, _) => DeleteAccepted(d, op);
    case Toggle(_, _, _, _) => ToggleAccepted(d, op);
    case Reorder(_, _) => ReorderAccepted(d, op);
  }

  // ---------------------------------------------------------------------------------------------
  // What becomes of switches and order
  // ---------------------------------------------------------------------------------------------

  datatype Settings = Settings(order: seq<Name>, enabled: map<Name, bool>)

  function SettingsOf(d: Disk): Settings
  {
    Settings(d.config.order, d.config.enabled)
  }

  /** The names but this one, in their order. */
  function Others(names: seq<Name>, name: Name): seq<Name>
    decreases |names|
  {
    if names == [] then []
    else
      var n := |names| - 1;
      if names[n] == name then Others(names[..n], name) else Others(names[..n], name) + [names[n]]
  }

  /** A created rule is on and comes last unless it has a place, a deleted one leaves order and switches. */
  function Set(s: Settings, op: Op): Settings
  {
    match op
    case Save(_, _, _, _) => s
    case Create(name, _, _, _) =>
      Settings(if name in s.order then s.order else s.order + [name], s.enabled[name := true])
    case Delete(name, _, _) => Settings(Others(s.order, name), s.enabled - {name})
    case Toggle(name, on, _, _) => s.(enabled := s.enabled[name := on])
    case Reorder(order, _) => s.(order := order)
  }

  lemma {:induction false} OthersSplit(names: seq<Name>, name: Name)
    requires names != []
    ensures Others(names, name) == (if names[0] == name then [] else [names[0]]) + Others(names[1..], name)
    decreases |names|
  {
    var n := |names| - 1;
    if n > 0 {
      OthersSplit(names[..n], name);
      assert names[..n][1..] == names[1..][..n - 1] && names[1..][n - 1] == names[n];
    }
  }

  lemma {:induction false} WithoutIsOthers(names: seq<Name>, name: Name)
    ensures Without(names, name) == Others(names, name)
    decreases |names|
  {
    if names != [] {
      OthersSplit(names, name);
      WithoutIsOthers(names[1..], name);
    }
  }

  /** The configuration on disk has the order and the switches of this one. */
  predicate SameSettings(d: Disk, c: Config)
  {
    d.config.order == c.order && d.config.enabled == c.enabled
  }

  lemma DeletionSets(d: Disk, op: Op, cut: nat)
    requires op.Delete? && !Refused(d, op) && 0 < cut <= |Writes(d, op)|
    ensures SameSettings(Cut(d, op, cut), DeletedConfig(d.config, op.name))
  {
    hide Savable, Resolve, Remove, Without, Refused;
  }

  lemma CommitSets(d: Disk, op: Op, cut: nat)
    requires (op.Save? || op.Create?) && !Refused(d, op) && 0 < cut <= |Writes(d, op)|
    ensures op.text.Some?
    ensures SameSettings(Cut(d, op, cut), if op.Save? then Committed(d.config, op.name, op.text.value)
                                          else CreatedConfig(d.config, op.name, op.text.value))
  {
    hide Remove, Savable, Available, NameOk;
    assert op.text.Some?;
    hide Refused;
    var written := Writes(d, op)[0].config;
    assert forall k | 0 <= k < |Writes(d, op)| :: Writes(d, op)[k].config == written;
    hide Writes;
  }

  /** Whichever write an operation is cut off after, the first one has set everything. */
  lemma SetAtFirstWrite(d: Disk, op: Op, cut: nat)
    requires !Refused(d, op) && cut <= |Writes(d, op)|
    ensures SettingsOf(Cut(d, op, cut)) == if cut == 0 then SettingsOf(d) else Set(SettingsOf(d), op)
  {
    if cut > 0 && op.Delete? {
      WithoutIsOthers(d.config.order, op.name);
      DeletionSets(d, op, cut);
      hide Refused, Writes, Cut, Without, Others;
    } else if cut > 0 && (op.Save? || op.Create?) {
      CommitSets(d, op, cut);
      hide Refused, Writes, Cut, Remove;
    } else {
      hide Refused;
    }
  }

  function SetAll(s: Settings, ops: seq<Op>): Settings
    decreases |ops|
  {
    if ops == [] then s else SetAll(Set(s, ops[0]), ops[1..])
  }

  /** Through every run with crashes switches and order are those that the effective operations set. */
  lemma {:induction false} SettingsFollowOperations(d: Disk, steps: seq<Step>, d': Disk)
    requires Reaches(d, steps, d')
    ensures SettingsOf(d') == SetAll(SettingsOf(d), Effects(d, steps))
    decreases |steps|
  {
    hide Refused, Writes, Cut, Set, SettingsOf;
    if steps != [] {
      var s := steps[0];
      if !Refused(d, s.op) { SetAtFirstWrite(d, s.op, s.cut); }
      SettingsFollowOperations(Next(d, s), steps[1..], d');
      var rest := Effects(Next(d, s), steps[1..]);
      if !Refused(d, s.op) && s.cut > 0 {
        assert ([s.op] + rest)[1..] == rest;
      } else {
        assert [] + rest == rest;
      }
    }
  }
}
