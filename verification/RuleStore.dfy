/**
 The layered rule store of `okxquant_backend/interceptor_manager.py`: a source directory that is never
 written, an overlay directory, a manifest of committed sources and a list of deleted names, with a crash
 possible between any two writes.
 */
module RuleStore {
  import opened Options

  type Name = string
  type Text = string

  const MAX_PLUGINS: nat := 64
  const MAX_SOURCE_BYTES: nat := 65536

  datatype Config = Config(order: seq<Name>, enabled: map<Name, bool>, deleted: seq<Name>, sources: map<Name, Text>)

  /** Everything on disk: the configuration file, the overlay files, the source files. */
  datatype Disk = Disk(config: Config, overlay: map<Name, Text>, source: map<Name, Text>)

  // ---------------------------------------------------------------------------------------------
  // Names and limits
  // ---------------------------------------------------------------------------------------------

  predicate EndsWith(text: string, tail: string)
  {
    |text| >= |tail| && text[|text| - |tail|..] == tail
  }

  predicate TwoDots(text: string)
    decreases |text|
  {
    |text| >= 2 && (text[..2] == ".." || TwoDots(text[1..]))
  }

  function Stem(text: string): string
    decreases |text|
  {
    if text == "" || text[0] == '.' then "" else [text[0]] + Stem(text[1..])
  }

  function Upper(text: string): string
  {
    seq(|text|, i requires 0 <= i < |text| => if 'a' <= text[i] <= 'z' then text[i] - 'a' + 'A' else text[i])
  }

  predicate Reserved(stem: string)
  {
    stem in {"CON", "PRN", "AUX", "NUL"}
    || (|stem| == 4 && stem[..3] in {"COM", "LPT"} && '1' <= stem[3] <= '9')
  }

  predicate NameOk(name: Name)
  {
    && EndsWith(name, ".py") && 3 < |name| <= 128 && !TwoDots(name)
    && (forall i | 0 <= i < |name| :: name[i] >= ' ' && name[i] !in {'<', '>', ':', '"', '/', '\\', '|', '?', '*'})
    && !Reserved(Upper(Stem(name)))
  }

  /** Bytes of the UTF-8 encoding. */
  function Bytes(text: Text): nat
    decreases |text|
  {
    if text == "" then 0
    else
      var c := text[|text| - 1] as int;
      Bytes(text[..|text| - 1]) + (if c < 0x80 then 1 else if c < 0x800 then 2 else if c < 0x1_0000 then 3 else 4)
  }

  predicate AllNamesOk(names: seq<Name>)
  {
    forall i | 0 <= i < |names| :: NameOk(names[i])
  }

  /** `_check_config` */
  predicate ConfigOk(c: Config)
  {
    && |c.order| <= MAX_PLUGINS && |c.enabled| <= MAX_PLUGINS
    && |c.deleted| <= MAX_PLUGINS && |c.sources| <= MAX_PLUGINS
    && AllNamesOk(c.order) && AllNamesOk(c.deleted)
    && (forall name | name in c.enabled :: NameOk(name))
    && (forall name | name in c.sources :: NameOk(name) && Bytes(c.sources[name]) <= MAX_SOURCE_BYTES)
  }

  /** `save_config` accepts the configuration; `small` says that its text fits the size limit. */
  predicate Savable(c: Config, small: bool)
  {
    ConfigOk(c) && small
  }

  // ---------------------------------------------------------------------------------------------
  // What is visible
  // ---------------------------------------------------------------------------------------------

  /** What a name shows: nothing if deleted, else the manifest, the overlay, the source file. */
  function Shown(d: Disk, name: Name): Option<Text>
  {
    if name in d.config.deleted then None
    else if name in d.config.sources then Some(d.config.sources[name])
    else if name in d.overlay then Some(d.overlay[name])
    else if name in d.source then Some(d.source[name])
    else None
  }

  /** The rules by name, with the text each one resolves to. */
  function Visible(d: Disk): map<Name, Text>
  {
    map name | name in d.config.sources.Keys + d.overlay.Keys + d.source.Keys && Shown(d, name).Some? :: Shown(d, name).value
  }

  /** The names on disk and in the manifest that are not deleted. */
  function Found(d: Disk): set<Name>
  {
    set name | name in d.source.Keys + d.overlay.Keys + d.config.sources.Keys && name !in d.config.deleted
  }

  /** The file names in the two directories. */
  function Files(d: Disk): set<Name>
  {
    d.source.Keys + d.overlay.Keys
  }

  /** `_available`: the names found, unless the two directories hold too many files or a bad name. */
  function Available(d: Disk): Option<set<Name>>
  {
    if |Files(d)| > MAX_PLUGINS || exists name | name in Files(d) :: !NameOk(name) then None else Some(Found(d))
  }

  /** `_resolve` followed by `_source_text` */
  function Resolve(d: Disk, name: Name): Option<Text>
  {
    if NameOk(name) then Shown(d, name) else None
  }

  lemma VisibleShows(d: Disk, name: Name)
    ensures Shown(d, name) == if name in Visible(d) then Some(Visible(d)[name]) else None
  {
  }

  lemma ViewIs(d: Disk, rules: map<Name, Text>)
    requires forall name :: Shown(d, name) == if name in rules then Some(rules[name]) else None
    ensures Visible(d) == rules
  {
    hide Shown;
    forall name ensures name in Visible(d) <==> name in rules {
      VisibleShows(d, name);
      assert Shown(d, name) == if name in rules then Some(rules[name]) else None;
    }
  }

  lemma FoundShows(d: Disk, name: Name)
    ensures name in Found(d) <==> Shown(d, name).Some?
  {
  }

  /** What the operations find and read is the visible map. */
  lemma FilesAreTheVisibleRules(d: Disk, name: Name)
    ensures Available(d).Some? ==> Available(d).value == Visible(d).Keys
    ensures NameOk(name) ==> Resolve(d, name) == if name in Visible(d) then Some(Visible(d)[name]) else None
  {
    VisibleShows(d, name);
    hide NameOk, Found, Visible, Shown;
    forall other ensures other in Found(d) <==> other in Visible(d).Keys {
      FoundShows(d, other);
      VisibleShows(d, other);
    }
    assert Found(d) == Visible(d).Keys;
  }

  // ---------------------------------------------------------------------------------------------
  // Operations as sequences of writes
  // ---------------------------------------------------------------------------------------------

  /** `deleted.remove(name)` */
  function Remove(names: seq<Name>, name: Name): seq<Name>
    decreases |names|
  {
    if names == [] then [] else if names[0] == name then names[1..] else [names[0]] + Remove(names[1..], name)
  }

  function Without(names: seq<Name>, name: Name): seq<Name>
    decreases |names|
  {
    if names == [] then []
    else if names[0] == name then Without(names[1..], name)
    else [names[0]] + Without(names[1..], name)
  }

  function Committed(c: Config, name: Name, text: Text): Config
  {
    c.(sources := c.sources[name := text], deleted := Remove(c.deleted, name))
  }

  function CreatedConfig(c: Config, name: Name, text: Text): Config
  {
    var committed := Committed(c, name, text);
    committed.(order := if name in c.order then c.order else c.order + [name], enabled := c.enabled[name := true])
  }

  function DeletedConfig(c: Config, name: Name): Config
  {
    Config(Without(c.order, name), c.enabled - {name},
           if name in c.deleted then c.deleted else c.deleted + [name], c.sources - {name})
  }

  /** `text` is the validated program, `mirrored` whether the overlay copy could be written. */
  datatype Op =
    | Save(name: Name, text: Option<Text>, small: bool, mirrored: bool)
    | Create(name: Name, text: Option<Text>, small: bool, mirrored: bool)
    | Delete(name: Name, small: bool, smallAgain: bool)
    | Toggle(name: Name, on: bool, valid: bool, small: bool)
    | Reorder(order: seq<Name>, small: bool)

  /** A refused operation writes nothing. */
  predicate Refused(d: Disk, op: Op)
  {
    match op
    case Save(name, text, small, _) =>
      || !NameOk(name) || text.None? || Available(d).None?
      || (name !in Available(d).value && |Available(d).value| >= MAX_PLUGINS)
      || !Savable(Committed(d.config, name, text.value), small)
    case Create(name, text, small, _) =>
      || !NameOk(name) || text.None? || Available(d).None?
      || name in Available(d).value || |Available(d).value| >= MAX_PLUGINS
      || !Savable(CreatedConfig(d.config, name, text.value), small)
    case Delete(name, small, _) =>
      Resolve(d, name).None? || !Savable(DeletedConfig(d.config, name), small)
    case Toggle(name, on, valid, small) =>
      Resolve(d, name).None? || (on && !valid) || !Savable(d.config.(enabled := d.config.enabled[name := on]), small)
    case Reorder(order, small) => Available(d).None? || !Savable(d.config.(order := order), small)
  }

  /** The disk after each write, in order. */
  function Writes(d: Disk, op: Op): seq<Disk>
    requires !Refused(d, op)
  {
    match op
    case Save(name, text, _, mirrored) =>
      var w1 := d.(config := Committed(d.config, name, text.value));
      if mirrored then [w1, w1.(overlay := d.overlay[name := text.value])] else [w1]
    case Create(name, text, _, mirrored) =>
      var w1 := d.(config := CreatedConfig(d.config, name, text.value));
      if mirrored then [w1, w1.(overlay := d.overlay[name := text.value])] else [w1]
    case Delete(name, _, smallAgain) =>
      var w1 := d.(config := DeletedConfig(d.config, name));
      var w2 := w1.(overlay := d.overlay - {name});
      var unlinked := if name in d.overlay then [w1, w2] else [w1];
      var cleared := w1.config.(deleted := Remove(w1.config.deleted, name));
      if name !in d.source && Savable(cleared, smallAgain) then unlinked + [w2.(config := cleared)] else unlinked
    case Toggle(name, on, _, _) => [d.(config := d.config.(enabled := d.config.enabled[name := on]))]
    case Reorder(order, _) => [d.(config := d.config.(order := order))]
  }

  /** The disk when the operation is cut off after `cut` writes. */
  function Cut(d: Disk, op: Op, cut: nat): Disk
    requires !Refused(d, op) && cut <= |Writes(d, op)|
  {
    if cut == 0 then d else Writes(d, op)[cut - 1]
  }

  /** The disk when the operation runs to its end. */
  function Last(d: Disk, op: Op): Disk
    requires !Refused(d, op)
  {
    Writes(d, op)[|Writes(d, op)| - 1]
  }

  /** The same operation on a plain map. */
  function Applied(rules: map<Name, Text>, op: Op): map<Name, Text>
  {
    match op
    case Save(name, text, _, _) => if text.Some? then rules[name := text.value] else rules
    case Create(name, text, _, _) => if text.Some? then rules[name := text.value] else rules
    case Delete(name, _, _) => rules - {name}
    case _ => rules
  }

  predicate Distinct(names: seq<Name>)
  {
    forall i, j | 0 <= i < j < |names| :: names[i] != names[j]
  }

  /** No name is deleted twice, so taking one tombstone away uncovers the name. */
  predicate Inv(d: Disk)
  {
    Distinct(d.config.deleted)
  }

  lemma {:induction false} RemoveMeans(names: seq<Name>, name: Name)
    requires Distinct(names)
    ensures Distinct(Remove(names, name))
    ensures forall other :: other in Remove(names, name) <==> other in names && other != name
    decreases |names|
  {
    if names != [] {
      var rest := names[1..];
      assert names == [names[0]] + rest && names[0] !in rest;
      RemoveMeans(rest, name);
      if names[0] != name {
        var kept := Remove(rest, name);
        assert names[0] !in kept;
        assert Remove(names, name) == [names[0]] + kept;
      }
    }
  }

  lemma CommitShown(d: Disk, after: Disk, name: Name, text: Text, other: Name)
    requires after.config.sources == d.config.sources[name := text] && after.source == d.source
    requires other in after.config.deleted <==> other in d.config.deleted && other != name
    requires after.overlay == d.overlay || after.overlay == d.overlay[name := text]
    ensures Shown(after, other) == if other == name then Some(text) else Shown(d, other)
  {
  }

  /** Storing a text in the manifest and lifting the tombstone shows it, with or without the mirror. */
  lemma CommitShows(d: Disk, name: Name, text: Text, config: Config, overlay: map<Name, Text>)
    requires Inv(d) && config.sources == d.config.sources[name := text]
    requires config.deleted == Remove(d.config.deleted, name)
    requires overlay == d.overlay || overlay == d.overlay[name := text]
    ensures var after := Disk(config, overlay, d.source);
            Inv(after) && Visible(after) == Visible(d)[name := text]
  {
    RemoveMeans(d.config.deleted, name);
    hide Shown, Visible, Distinct, Remove;
    var after, rules := Disk(config, overlay, d.source), Visible(d)[name := text];
    forall other ensures Shown(after, other) == if other in rules then Some(rules[other]) else None {
      CommitShown(d, after, name, text, other);
      VisibleShows(d, other);
    }
    ViewIs(after, rules);
  }

  lemma DeleteShown(d: Disk, after: Disk, name: Name, other: Name)
    requires after.config.sources == d.config.sources - {name} && after.source == d.source
    requires after.overlay == d.overlay || after.overlay == d.overlay - {name}
    requires other != name ==> (other in after.config.deleted <==> other in d.config.deleted)
    requires name in after.config.deleted || (name !in after.overlay && name !in d.source)
    ensures Shown(after, other) == if other == name then None else Shown(d, other)
  {
  }

  /** A name taken out of the manifest shows nothing while it is tombstoned or has no file. */
  lemma DeleteHides(d: Disk, name: Name, config: Config, overlay: map<Name, Text>)
    requires config.sources == d.config.sources - {name} && Distinct(config.deleted)
    requires overlay == d.overlay || overlay == d.overlay - {name}
    requires forall other | other != name :: other in config.deleted <==> other in d.config.deleted
    requires name in config.deleted || (name !in overlay && name !in d.source)
    ensures var after := Disk(config, overlay, d.source);
            Inv(after) && Visible(after) == Visible(d) - {name}
  {
    hide Shown, Visible, Distinct;
    var after, rules := Disk(config, overlay, d.source), Visible(d) - {name};
    forall other ensures Shown(after, other) == if other in rules then Some(rules[other]) else None {
      DeleteShown(d, after, name, other);
      VisibleShows(d, other);
    }
    ViewIs(after, rules);
  }

  /** What each write of a deletion leaves in the configuration and the overlay. */
  lemma DeleteWrites(d: Disk, op: Op, cut: nat)
    requires op.Delete? && Inv(d) && !Refused(d, op) && 0 < cut <= |Writes(d, op)|
    ensures var after := Cut(d, op, cut);
            && after.source == d.source && after.config.sources == d.config.sources - {op.name}
            && (after.overlay == d.overlay || after.overlay == d.overlay - {op.name})
            && (after.config.deleted == d.config.deleted + [op.name]
                || (after.config.deleted == Remove(d.config.deleted + [op.name], op.name)
                    && op.name !in after.overlay && op.name !in d.source))
            && op.name !in d.config.deleted
  {
    hide Savable, NameOk, Visible, Remove, Without, Distinct;
    assert op.name !in d.overlay ==> d.overlay - {op.name} == d.overlay;
  }

  lemma DeleteCommits(d: Disk, op: Op, cut: nat)
    requires op.Delete? && Inv(d) && !Refused(d, op) && 0 < cut <= |Writes(d, op)|
    ensures Inv(Cut(d, op, cut)) && Visible(Cut(d, op, cut)) == Visible(d) - {op.name}
  {
    var name, after := op.name, Cut(d, op, cut);
    DeleteWrites(d, op, cut);
    hide Refused, Writes, Cut, Visible, Remove;
    var tombstoned := d.config.deleted + [name];
    RemoveMeans(tombstoned, name);
    DeleteHides(d, name, after.config, after.overlay);
  }

  /**
   Before the first write an operation has not happened, after the first write it has, whatever becomes
   of the mirror file, the overlay file and the tombstone.
   */
  lemma CommitsAtFirstWrite(d: Disk, op: Op, cut: nat)
    requires Inv(d) && !Refused(d, op) && cut <= |Writes(d, op)|
    ensures Inv(Cut(d, op, cut))
    ensures Visible(Cut(d, op, cut)) == if cut == 0 then Visible(d) else Applied(Visible(d), op)
  {
    hide Savable, NameOk, Available, Visible, Remove;
    if cut > 0 {
      var after := Cut(d, op, cut);
      match op
      case Save(name, text, _, _) => CommitShows(d, name, text.value, after.config, after.overlay);
      case Create(name, text, _, _) => CommitShows(d, name, text.value, after.config, after.overlay);
      case Delete(_, _, _) => DeleteCommits(d, op, cut);
      case Toggle(_, _, _, _) => SameLayers(d, after);
      case Reorder(_, _) => SameLayers(d, after);
    }
  }

  lemma SameLayers(d: Disk, after: Disk)
    requires after.config.sources == d.config.sources && after.config.deleted == d.config.deleted
    requires after.overlay == d.overlay && after.source == d.source
    ensures Visible(after) == Visible(d)
  {
  }

  // ---------------------------------------------------------------------------------------------
  // Runs
  // ---------------------------------------------------------------------------------------------

  /** One operation, refused or cut off after some of its writes. */
  datatype Step = Step(op: Op, cut: nat)

  predicate Enabled(d: Disk, s: Step)
  {
    Refused(d, s.op) || s.cut <= |Writes(d, s.op)|
  }

  function Next(d: Disk, s: Step): Disk
    requires Enabled(d, s)
  {
    if Refused(d, s.op) then d else Cut(d, s.op, s.cut)
  }

  ghost predicate Reaches(d: Disk, steps: seq<Step>, d': Disk)
    decreases |steps|
  {
    if steps == [] then d' == d
    else Enabled(d, steps[0]) && Reaches(Next(d, steps[0]), steps[1..], d')
  }

  /** The operations that took effect. */
  ghost function Effects(d: Disk, steps: seq<Step>): seq<Op>
    decreases |steps|
  {
    if steps == [] || !Enabled(d, steps[0]) then []
    else
      (if Refused(d, steps[0].op) || steps[0].cut == 0 then [] else [steps[0].op])
      + Effects(Next(d, steps[0]), steps[1..])
  }

  function AppliedAll(rules: map<Name, Text>, ops: seq<Op>): map<Name, Text>
    decreases |ops|
  {
    if ops == [] then rules else AppliedAll(Applied(rules, ops[0]), ops[1..])
  }

  /** Through every run with crashes the four layers act as one plain map. */
  lemma {:induction false} LayersActAsOneMap(d: Disk, steps: seq<Step>, d': Disk)
    requires Inv(d) && Reaches(d, steps, d')
    ensures Inv(d') && Visible(d') == AppliedAll(Visible(d), Effects(d, steps))
    decreases |steps|
  {
    hide Refused, Writes, Visible, Inv, Applied;
    if steps != [] {
      var s := steps[0];
      if !Refused(d, s.op) { CommitsAtFirstWrite(d, s.op, s.cut); }
      LayersActAsOneMap(Next(d, s), steps[1..], d');
      var rest := Effects(Next(d, s), steps[1..]);
      if !Refused(d, s.op) && s.cut > 0 {
        assert ([s.op] + rest)[1..] == rest;
      } else {
        assert [] + rest == rest;
      }
    }
  }

  predicate Restores(op: Op, name: Name)
  {
    (op.Save? || op.Create?) && op.name == name
  }

  /** A rule that is gone stays gone until it is saved or created again. */
  lemma {:induction false} GoneStaysGone(rules: map<Name, Text>, ops: seq<Op>, name: Name)
    requires name !in rules && forall i | 0 <= i < |ops| :: !Restores(ops[i], name)
    ensures name !in AppliedAll(rules, ops)
    decreases |ops|
  {
    if ops != [] {
      assert !Restores(ops[0], name);
      forall i | 0 <= i < |ops[1..]| ensures !Restores(ops[1..][i], name) {
        assert ops[1..][i] == ops[i + 1];
      }
      GoneStaysGone(Applied(rules, ops[0]), ops[1..], name);
    }
  }

  lemma DeletedNeverReappears(d: Disk, steps: seq<Step>, d': Disk, name: Name)
    requires Inv(d) && Reaches(d, steps, d') && name !in Visible(d)
    requires forall i | 0 <= i < |Effects(d, steps)| :: !Restores(Effects(d, steps)[i], name)
    ensures name !in Visible(d')
  {
    LayersActAsOneMap(d, steps, d');
    GoneStaysGone(Visible(d), Effects(d, steps), name);
  }

  /** The number of visible rules never grows past the limit. */
  lemma {:induction false} LimitHolds(d: Disk, steps: seq<Step>, d': Disk)
    requires Inv(d) && Reaches(d, steps, d') && |Visible(d)| <= MAX_PLUGINS
    ensures |Visible(d')| <= MAX_PLUGINS
    decreases |steps|
  {
    if steps != [] {
      var s := steps[0];
      var next := Next(d, s);
      if !Refused(d, s.op) {
        CommitsAtFirstWrite(d, s.op, s.cut);
        LimitStep(d, s.op);
      }
      hide Refused, Writes, Visible, Applied;
      LimitHolds(next, steps[1..], d');
    }
  }

  lemma LimitStep(d: Disk, op: Op)
    requires !Refused(d, op) && |Visible(d)| <= MAX_PLUGINS
    ensures |Applied(Visible(d), op)| <= MAX_PLUGINS
  {
    var rules := Visible(d);
    if op.Save? || op.Create? {
      FilesAreTheVisibleRules(d, op.name);
      hide Visible, Available, Savable, NameOk;
      assert |rules.Keys| == |rules|;
      assert Applied(rules, op).Keys == rules.Keys + {op.name};
    } else if op.Delete? {
      hide Visible, Available, Savable, NameOk;
      assert Applied(rules, op).Keys == rules.Keys - {op.name};
      assert |rules.Keys| == |rules|;
    }
  }
}
