/**
 How the file count of the rule directories stands in the way of the rule store.

 The files are counted before the tombstones are applied, so deleted source rules count. A store with no
 more than sixty-four visible rules can therefore come to hold sixty-five files, and then every save,
 creation and reordering is refused. `CountDecides` says when that is, `PassesLimitExactly` and
 `FallsBackExactly` which steps lead in and out, and `SeizedForGoodExactly` when no run leads out.
 */
module RuleDirectories {
  import opened Options
  import opened RuleStore

  predicate NamesOk(d: Disk)
  {
    forall name <- Files(d) :: NameOk(name)
  }

  predicate Seized(d: Disk)
  {
    |Files(d)| > MAX_PLUGINS
  }

  // ---------------------------------------------------------------------------------------------
  // What every run keeps
  // ---------------------------------------------------------------------------------------------

  /** A checked configuration without repeated tombstones, and file names that are allowed. */
  predicate Sane(d: Disk)
  {
    ConfigOk(d.config) && Inv(d) && NamesOk(d)
  }

  /** What one step does to the files: a mirrored save or creation adds its name, a deletion past its first
      write takes a name away that has no source file, and nothing else changes. */
  function FilesAfter(d: Disk, s: Step): set<Name>
  {
    if Refused(d, s.op) then Files(d)
    else
      match s.op
      case Save(name, _, _, _) => if s.cut >= 2 then Files(d) + {name} else Files(d)
      case Create(name, _, _, _) => if s.cut >= 2 then Files(d) + {name} else Files(d)
      case Delete(name, _, _) => if s.cut >= 2 && name !in d.source then Files(d) - {name} else Files(d)
      case _ => Files(d)
  }

  lemma FilesStep(d: Disk, s: Step)
    requires Enabled(d, s)
    ensures Files(Next(d, s)) == FilesAfter(d, s)
    ensures Next(d, s).source == d.source
  {
    hide Savable, NameOk, Available, Resolve, Remove;
  }

  lemma ConfigStep(d: Disk, s: Step)
    requires Enabled(d, s)
    ensures Next(d, s).config == d.config || ConfigOk(Next(d, s).config)
  {
    hide NameOk, Available, Resolve, Remove, ConfigOk;
  }

  lemma SaneStep(d: Disk, s: Step)
    requires Enabled(d, s) && Sane(d)
    ensures Sane(Next(d, s))
  {
    hide ConfigOk, Inv;
    FilesStep(d, s);
    ConfigStep(d, s);
    if !Refused(d, s.op) { CommitsAtFirstWrite(d, s.op, s.cut); }
    NewNameOk(d, s);
  }

  lemma NewNameOk(d: Disk, s: Step)
    ensures forall name | name in FilesAfter(d, s) :: name in Files(d) || NameOk(name)
  {
    hide NameOk, Available, Resolve, Savable;
  }

  // ---------------------------------------------------------------------------------------------
  // The count decides
  // ---------------------------------------------------------------------------------------------

  /** Nothing but the directories can stand in the way of a save, a creation or a reordering. */
  predicate Ready(d: Disk, op: Op)
  {
    match op
    case Save(name, text, small, _) =>
      && NameOk(name) && text.Some? && Savable(Committed(d.config, name, text.value), small)
      && (name in Visible(d) || |Visible(d)| < MAX_PLUGINS)
    case Create(name, text, small, _) =>
      && NameOk(name) && text.Some? && Savable(CreatedConfig(d.config, name, text.value), small)
      && name !in Visible(d) && |Visible(d)| < MAX_PLUGINS
    case Reorder(order, small) => Savable(d.config.(order := order), small)
    case _ => false
  }

  /** A save, creation or reordering that is in order itself is refused exactly when the two directories
      hold more than sixty-four names or a bad one, however many of the names are deleted. */
  lemma CountDecides(d: Disk, op: Op)
    requires Ready(d, op)
    ensures Refused(d, op) <==> Seized(d) || !NamesOk(d)
  {
    hide NameOk, Savable, Visible, Found, Files;
    if !op.Reorder? { FilesAreTheVisibleRules(d, op.name); }
    assert |Visible(d).Keys| == |Visible(d)|;
  }

  lemma {:induction false} RemoveKeepsOk(names: seq<Name>, name: Name)
    requires AllNamesOk(names)
    ensures AllNamesOk(Remove(names, name)) && |Remove(names, name)| <= |names|
    decreases |names|
  {
    hide NameOk;
    if names != [] {
      assert NameOk(names[0]);
      assert forall i | 0 <= i < |names[1..]| :: names[1..][i] == names[i + 1];
      RemoveKeepsOk(names[1..], name);
    }
  }

  lemma SetGrows(names: set<Name>, name: Name)
    ensures |names + {name}| == if name in names then |names| else |names| + 1
    ensures |names - {name}| == if name in names then |names| - 1 else |names|
  {
    if name in names {
      assert names + {name} == names;
    } else {
      assert names - {name} == names;
    }
  }

  lemma UpdatedMap<V>(m: map<Name, V>, name: Name, v: V)
    ensures |m[name := v]| == if name in m then |m| else |m| + 1
  {
    SetGrows(m.Keys, name);
    assert m[name := v].Keys == m.Keys + {name};
    assert |m[name := v].Keys| == |m[name := v]| && |m.Keys| == |m|;
  }

  lemma CommitSavable(c: Config, name: Name, text: Text)
    requires ConfigOk(c) && NameOk(name) && Bytes(text) <= MAX_SOURCE_BYTES
    requires name in c.sources || |c.sources| < MAX_PLUGINS
    ensures Savable(Committed(c, name, text), true)
  {
    hide NameOk, Bytes, AllNamesOk, Remove;
    RemoveKeepsOk(c.deleted, name);
    UpdatedMap(c.sources, name, text);
  }

  lemma EditIsReady(d: Disk, name: Name, text: Text, mirrored: bool)
    requires Sane(d) && name in d.config.sources && name in Visible(d) && Bytes(text) <= MAX_SOURCE_BYTES
    ensures Ready(d, Save(name, Some(text), true, mirrored))
  {
    assert NameOk(name);
    CommitSavable(d.config, name, text);
    hide NameOk, Visible, Bytes, Savable, Committed, ConfigOk, Inv, NamesOk;
  }

  /** Whatever it becomes, a visible rule of the manifest can be edited exactly while no file is one too many. */
  lemma EditRefusedExactly(d: Disk, name: Name, text: Text, mirrored: bool)
    requires Sane(d) && name in d.config.sources && name in Visible(d) && Bytes(text) <= MAX_SOURCE_BYTES
    ensures Refused(d, Save(name, Some(text), true, mirrored)) <==> Seized(d)
  {
    EditIsReady(d, name, text, mirrored);
    hide Ready, Refused, Visible, ConfigOk, Bytes;
    CountDecides(d, Save(name, Some(text), true, mirrored));
  }

  // ---------------------------------------------------------------------------------------------
  // In and out
  // ---------------------------------------------------------------------------------------------

  predicate TakesEffect(d: Disk, s: Step)
  {
    !Refused(d, s.op) && s.cut >= 2
  }

  /** The count passes the limit exactly when a save or creation at sixty-four files writes the mirror of
      a name that has none. */
  lemma PassesLimitExactly(d: Disk, s: Step)
    requires Enabled(d, s) && !Seized(d)
    ensures Seized(Next(d, s))
       <==> && TakesEffect(d, s) && (s.op.Save? || s.op.Create?)
            && |Files(d)| == MAX_PLUGINS && s.op.name !in Files(d)
    ensures |Files(Next(d, s))| <= MAX_PLUGINS + 1
  {
    hide Refused, Files, Next, Enabled;
    FilesStep(d, s);
    SetGrows(Files(d), if s.op.Reorder? then "" else s.op.name);
  }

  /** From one file too many the count falls back exactly when a deletion takes away the file of a rule
      that has no source file. */
  lemma FallsBackExactly(d: Disk, s: Step)
    requires Enabled(d, s) && |Files(d)| == MAX_PLUGINS + 1
    ensures !Seized(Next(d, s))
       <==> TakesEffect(d, s) && s.op.Delete? && s.op.name in d.overlay && s.op.name !in d.source
    ensures |Files(Next(d, s))| <= MAX_PLUGINS + 1
  {
    hide Refused, Next, Enabled;
    FilesStep(d, s);
    SeizedAddsNothing(d, s);
    SetGrows(Files(d), if s.op.Reorder? then "" else s.op.name);
  }

  lemma SeizedAddsNothing(d: Disk, s: Step)
    requires Seized(d)
    ensures FilesAfter(d, s) <= Files(d)
    ensures s.op.Save? || s.op.Create? || s.op.Reorder? ==> Refused(d, s.op)
  {
    hide NameOk, Savable, Resolve;
  }

  /** Over every run the directories never hold more than one file too many. */
  lemma {:induction false} OneTooManyAtMost(d: Disk, steps: seq<Step>, d': Disk)
    requires Reaches(d, steps, d') && Sane(d) && |Files(d)| <= MAX_PLUGINS + 1
    ensures Sane(d') && |Files(d')| <= MAX_PLUGINS + 1
    decreases |steps|
  {
    hide Sane, Files, Next, Enabled, Refused;
    if steps != [] {
      var s := steps[0];
      SaneStep(d, s);
      if Seized(d) { FallsBackExactly(d, s); } else { PassesLimitExactly(d, s); }
      OneTooManyAtMost(Next(d, s), steps[1..], d');
    }
  }

  // ---------------------------------------------------------------------------------------------
  // Seized for good
  // ---------------------------------------------------------------------------------------------

  /** No overlay file can be deleted any more: every one without a source file is tombstoned already, or
      the list of tombstones is full. */
  predicate Stuck(d: Disk)
  {
    || |d.config.deleted| >= MAX_PLUGINS
    || forall name | name in d.overlay && name !in d.source :: name in d.config.deleted
  }

  ghost predicate NeverFree(d: Disk)
  {
    forall steps, d' | Reaches(d, steps, d') :: Seized(d')
  }

  lemma DeletionNeedsRoom(d: Disk, name: Name, small: bool, again: bool)
    requires !Refused(d, Delete(name, small, again))
    ensures name !in d.config.deleted && |d.config.deleted| < MAX_PLUGINS
  {
    hide NameOk, Bytes;
  }

  /** Whatever a deletion has written, the tombstones of the other names are as they were. */
  lemma DeletionTombstones(d: Disk, s: Step)
    requires Enabled(d, s) && Inv(d) && s.op.Delete? && !Refused(d, s.op)
    ensures Next(d, s).overlay == d.overlay || Next(d, s).overlay == d.overlay - {s.op.name}
    ensures forall name | name in d.config.deleted :: name in Next(d, s).config.deleted
  {
    if s.cut > 0 {
      DeleteWrites(d, s.op, s.cut);
      hide Writes, Cut, Refused, Remove;
      RemoveMeans(d.config.deleted + [s.op.name], s.op.name);
    }
  }

  lemma StuckKept(d: Disk, after: Disk, name: Name)
    requires Stuck(d) && |d.config.deleted| < MAX_PLUGINS && after.source == d.source
    requires after.overlay == d.overlay || after.overlay == d.overlay - {name}
    requires forall other | other in d.config.deleted :: other in after.config.deleted
    ensures Stuck(after)
    ensures name in d.overlay && name !in d.source ==> name in d.config.deleted
  {
  }

  lemma StuckDelete(d: Disk, s: Step)
    requires Enabled(d, s) && Sane(d) && Stuck(d) && s.op.Delete? && !Refused(d, s.op)
    ensures Files(Next(d, s)) == Files(d) && Stuck(Next(d, s))
  {
    hide Refused, Next, Enabled, Stuck;
    DeletionNeedsRoom(d, s.op.name, s.op.small, s.op.smallAgain);
    DeletionTombstones(d, s);
    hide Sane;
    FilesStep(d, s);
    StuckKept(d, Next(d, s), s.op.name);
    assert s.op.name !in d.source ==> s.op.name !in Files(d);
    assert s.op.name !in Files(d) ==> Files(d) - {s.op.name} == Files(d);
  }

  lemma StuckElse(d: Disk, s: Step)
    requires Enabled(d, s) && Stuck(d) && (Refused(d, s.op) || s.op.Toggle?)
    ensures Files(Next(d, s)) == Files(d) && Stuck(Next(d, s))
  {
    hide Refused;
  }

  lemma StuckStep(d: Disk, s: Step)
    requires Enabled(d, s) && Sane(d) && Seized(d) && Stuck(d)
    ensures Seized(Next(d, s)) && Stuck(Next(d, s))
  {
    hide Refused, Next, Enabled, Sane, Stuck;
    SeizedAddsNothing(d, s);
    if s.op.Delete? && !Refused(d, s.op) { StuckDelete(d, s); } else { StuckElse(d, s); }
  }

  lemma {:induction false} StuckRun(d: Disk, steps: seq<Step>, d': Disk)
    requires Reaches(d, steps, d') && Sane(d) && Seized(d) && Stuck(d)
    ensures Seized(d')
    decreases |steps|
  {
    hide Sane, Seized, Stuck, Next, Enabled;
    if steps != [] {
      SaneStep(d, steps[0]);
      StuckStep(d, steps[0]);
      StuckRun(Next(d, steps[0]), steps[1..], d');
    }
  }

  lemma OneStepReaches(d: Disk, s: Step)
    requires Enabled(d, s)
    ensures Reaches(d, [s], Next(d, s))
  {
    hide Enabled, Next;
    assert [s][1..] == [];
    assert Reaches(Next(d, s), [], Next(d, s));
  }

  lemma {:induction false} WithoutKeepsOk(names: seq<Name>, name: Name)
    requires AllNamesOk(names)
    ensures AllNamesOk(Without(names, name)) && |Without(names, name)| <= |names|
    decreases |names|
  {
    hide NameOk;
    if names != [] {
      assert NameOk(names[0]);
      assert forall i | 0 <= i < |names[1..]| :: names[1..][i] == names[i + 1];
      WithoutKeepsOk(names[1..], name);
    }
  }

  lemma OneMoreOk(names: seq<Name>, name: Name)
    requires AllNamesOk(names) && NameOk(name)
    ensures AllNamesOk(names + [name])
  {
    hide NameOk;
  }

  lemma DeletionSavable(d: Disk, name: Name)
    requires ConfigOk(d.config) && NameOk(name) && |d.config.deleted| < MAX_PLUGINS
    ensures Savable(DeletedConfig(d.config, name), true)
  {
    hide NameOk, Bytes, AllNamesOk, Without;
    WithoutKeepsOk(d.config.order, name);
    OneMoreOk(d.config.deleted, name);
    SmallerMap(d.config.enabled, name);
    SmallerMap(d.config.sources, name);
  }

  lemma SmallerMap<V>(m: map<Name, V>, name: Name)
    ensures |m - {name}| <= |m|
  {
    SetGrows(m.Keys, name);
    assert (m - {name}).Keys == m.Keys - {name};
    assert |(m - {name}).Keys| == |m - {name}| && |m.Keys| == |m|;
  }

  lemma DeletionAccepted(d: Disk, name: Name)
    requires ConfigOk(d.config) && NameOk(name) && Shown(d, name).Some? && |d.config.deleted| < MAX_PLUGINS
    ensures !Refused(d, Delete(name, true, true))
  {
    DeletionSavable(d, name);
    hide Savable, NameOk, DeletedConfig, ConfigOk, Shown;
  }

  lemma DeletionWritesTwice(d: Disk, name: Name)
    requires name in d.overlay && !Refused(d, Delete(name, true, true))
    ensures |Writes(d, Delete(name, true, true))| >= 2
  {
    hide Refused, Savable, NameOk, DeletedConfig;
  }

  lemma FreeingStep(d: Disk) returns (s: Step)
    requires Sane(d) && |Files(d)| == MAX_PLUGINS + 1 && !Stuck(d)
    ensures Enabled(d, s) && !Seized(Next(d, s))
  {
    var name :| name in d.overlay && name !in d.source && name !in d.config.deleted;
    s := Step(Delete(name, true, true), 2);
    assert name in Files(d) && NameOk(name) && Shown(d, name).Some?;
    hide NameOk, ConfigOk, Refused, Writes, Next, Files, Seized, Shown;
    DeletionAccepted(d, name);
    DeletionWritesTwice(d, name);
    FallsBackExactly(d, s);
  }

  /** From one file too many there is no way back, whatever is done, exactly when the disk is stuck. */
  lemma SeizedForGoodExactly(d: Disk)
    requires Sane(d) && |Files(d)| == MAX_PLUGINS + 1
    ensures NeverFree(d) <==> Stuck(d)
  {
    hide Sane, Stuck, Enabled, Next;
    if Stuck(d) {
      forall steps, d' | Reaches(d, steps, d') ensures Seized(d') { StuckRun(d, steps, d'); }
    } else {
      var s := FreeingStep(d);
      OneStepReaches(d, s);
    }
  }

  // ---------------------------------------------------------------------------------------------
  // A store that seizes
  // ---------------------------------------------------------------------------------------------

  /** "x.py", "xx.py", and so on. */
  function FileName(i: nat): Name
  {
    seq(i + 1, _ => 'x') + ".py"
  }

  function FirstNames(n: nat): (names: set<Name>)
  {
    if n == 0 then {} else FirstNames(n - 1) + {FileName(n - 1)}
  }

  lemma {:induction false} FirstNamesAre(n: nat)
    ensures |FirstNames(n)| == n
    ensures forall name <- FirstNames(n) :: |name| < n + 4
    ensures forall i: nat | i < n :: FileName(i) in FirstNames(n)
    ensures n <= MAX_PLUGINS + 1 ==> forall name <- FirstNames(n) :: NameOk(name)
    decreases n
  {
    hide NameOk;
    if n > 0 {
      FirstNamesAre(n - 1);
      assert |FileName(n - 1)| == n + 3;
      if n <= MAX_PLUGINS + 1 { FileNameOk(n - 1); }
    }
  }

  lemma {:induction false} NoTwoDots(text: string)
    requires forall i, j | 0 <= i < |text| && j == i + 1 < |text| :: text[i] != '.' || text[j] != '.'
    ensures !TwoDots(text)
    decreases |text|
  {
    if |text| >= 2 {
      assert text[..2] == [text[0], text[1]];
      NoTwoDots(text[1..]);
    }
  }

  lemma {:induction false} StemOf(n: nat)
    ensures Stem(seq(n, _ => 'x') + ".py") == seq(n, _ => 'x')
    decreases n
  {
    var text: string := seq(n, _ => 'x');
    if n > 0 {
      StemOf(n - 1);
      assert (text + ".py")[1..] == seq(n - 1, _ => 'x') + ".py";
    } else {
      assert text + ".py" == ".py";
    }
  }

  lemma NotReserved(n: nat)
    requires n > 0
    ensures !Reserved(Upper(seq(n, _ => 'x')))
  {
    var upper := Upper(seq(n, _ => 'x'));
    assert upper[0] == 'X';
    if |upper| == 4 { assert upper[..3][0] == 'X'; }
  }

  lemma FileNameOk(i: nat)
    requires i <= MAX_PLUGINS
    ensures NameOk(FileName(i))
  {
    hide Reserved, Stem, Upper, TwoDots;
    NoTwoDots(FileName(i));
    StemOf(i + 1);
    NotReserved(i + 1);
  }

  /** Sixty-four source files with one text, and nothing else. */
  function FullStore(text: Text): Disk
  {
    Disk(Config([], map[], [], map[]), map[], map name | name in FirstNames(MAX_PLUGINS) :: text)
  }

  lemma FullStoreParts(text: Text)
    ensures FullStore(text).config == Config([], map[], [], map[]) && FullStore(text).overlay == map[]
  {
  }

  lemma FullStoreIs(text: Text)
    ensures var d := FullStore(text);
            && Sane(d) && |Files(d)| == MAX_PLUGINS
            && Visible(d).Keys == d.source.Keys == Files(d) == FirstNames(MAX_PLUGINS)
  {
    hide NameOk, FirstNames;
    FirstNamesAre(MAX_PLUGINS);
    var d := FullStore(text);
    assert Files(d) == FirstNames(MAX_PLUGINS);
    forall name ensures Shown(d, name) == if name in d.source then Some(d.source[name]) else None {}
    ViewIs(d, d.source);
  }

  /** A deletion cut off after its first write, or one that has only one. */
  lemma FirstWriteOfDeletion(d: Disk, name: Name) returns (s: Step)
    requires Sane(d) && name in Visible(d) && NameOk(name) && |d.config.deleted| < MAX_PLUGINS
    ensures s == Step(Delete(name, true, true), 1) && Enabled(d, s) && !Refused(d, s.op)
    ensures Next(d, s) == d.(config := DeletedConfig(d.config, name))
    ensures Sane(Next(d, s)) && Visible(Next(d, s)) == Visible(d) - {name}
  {
    s := Step(Delete(name, true, true), 1);
    VisibleShows(d, name);
    DeletionAccepted(d, name);
    FirstWrite(d, name);
    hide Savable, NameOk, DeletedConfig, Visible, Refused, Writes, Shown;
    CommitsAtFirstWrite(d, s.op, 1);
    hide Sane;
    SaneStep(d, s);
  }

  lemma FirstWrite(d: Disk, name: Name)
    requires !Refused(d, Delete(name, true, true))
    ensures var writes := Writes(d, Delete(name, true, true));
            writes != [] && writes[0] == d.(config := DeletedConfig(d.config, name))
  {
    hide Refused, Savable, NameOk, DeletedConfig;
  }

  lemma WholeCreation(d: Disk, name: Name, text: Text) returns (s: Step)
    requires Sane(d) && !Seized(d) && Ready(d, Create(name, Some(text), true, true))
    ensures s == Step(Create(name, Some(text), true, true), 2) && Enabled(d, s) && !Refused(d, s.op)
    ensures Next(d, s) == Disk(CreatedConfig(d.config, name, text), d.overlay[name := text], d.source)
    ensures Sane(Next(d, s)) && Visible(Next(d, s)) == Visible(d)[name := text]
  {
    s := Step(Create(name, Some(text), true, true), 2);
    CountDecides(d, s.op);
    hide Ready, Refused, CreatedConfig, Visible, NamesOk;
    CommitsAtFirstWrite(d, s.op, 2);
    hide Sane;
    SaneStep(d, s);
  }

  const GONE: Name := FileName(0)
  const CREATED: Name := FileName(MAX_PLUGINS)

  /** After the deletion of one source rule. */
  function EmptiedStore(text: Text): Disk
  {
    FullStore(text).(config := Config([], map[], [GONE], map[]))
  }

  /** After the creation of another rule. */
  function SeizedStore(text: Text): Disk
  {
    Disk(Config([CREATED], map[CREATED := true], [GONE], map[CREATED := text]), map[CREATED := text], FullStore(text).source)
  }

  lemma GoneAndCreated(text: Text)
    ensures GONE != CREATED && NameOk(GONE) && NameOk(CREATED)
    ensures GONE in FullStore(text).source && CREATED !in FullStore(text).source
  {
    hide NameOk, FirstNames;
    FirstNamesAre(MAX_PLUGINS);
    FileNameOk(0);
    FileNameOk(MAX_PLUGINS);
    assert |GONE| == 4 && |CREATED| == MAX_PLUGINS + 4;
  }

  lemma Emptying(text: Text) returns (s: Step)
    ensures var d := FullStore(text);
            Enabled(d, s) && Next(d, s) == EmptiedStore(text)
    ensures var d := EmptiedStore(text);
            Sane(d) && Files(d) == FirstNames(MAX_PLUGINS) && |Visible(d)| == MAX_PLUGINS - 1 && CREATED !in Visible(d)
  {
    hide NameOk, FirstNames, Refused, Enabled, Next, Visible, Sane, GONE, CREATED, FullStore;
    var d := FullStore(text);
    FullStoreParts(text);
    FullStoreIs(text);
    FirstNamesAre(MAX_PLUGINS);
    GoneAndCreated(text);
    s := FirstWriteOfDeletion(d, GONE);
    assert [] + [GONE] == [GONE];
    SmallerMap(Visible(d), GONE);
    SetGrows(Visible(d).Keys, GONE);
    assert (Visible(d) - {GONE}).Keys == Visible(d).Keys - {GONE};
    assert |(Visible(d) - {GONE}).Keys| == |Visible(d) - {GONE}|;
  }

  lemma SeizedConfig(text: Text)
    requires Bytes(text) <= MAX_SOURCE_BYTES
    ensures CreatedConfig(EmptiedStore(text).config, CREATED, text) == SeizedStore(text).config
    ensures Savable(SeizedStore(text).config, true)
  {
    hide NameOk, FullStore, GONE, CREATED, Bytes;
    GoneAndCreated(text);
    var none: seq<Name> := [];
    assert none + [CREATED] == [CREATED];
    assert [GONE][1..] == [];
    assert Remove([GONE], CREATED) == [GONE] + Remove([], CREATED) == [GONE];
    var flags: map<Name, bool>, texts: map<Name, Text> := map[], map[];
    UpdatedMap(flags, CREATED, true);
    UpdatedMap(texts, CREATED, text);
  }

  lemma SeizedFiles(text: Text)
    ensures |Files(SeizedStore(text))| == MAX_PLUGINS + 1
  {
    hide NameOk, FirstNames, Visible, FullStore, GONE, CREATED, Sane;
    FullStoreParts(text);
    FullStoreIs(text);
    FirstNamesAre(MAX_PLUGINS);
    GoneAndCreated(text);
    assert Files(SeizedStore(text)) == Files(FullStore(text)) + {CREATED};
  }

  lemma CreationReady(text: Text)
    requires Bytes(text) <= MAX_SOURCE_BYTES
    ensures Ready(EmptiedStore(text), Create(CREATED, Some(text), true, true)) && !Seized(EmptiedStore(text))
  {
    hide NameOk, FirstNames, Refused, Enabled, Next, Visible, Sane, EmptiedStore, SeizedStore, GONE, CREATED, Bytes,
         Files, Savable, CreatedConfig;
    var _ := Emptying(text);
    FirstNamesAre(MAX_PLUGINS);
    GoneAndCreated(text);
    SeizedConfig(text);
  }

  lemma Creating(text: Text) returns (s: Step)
    requires Bytes(text) <= MAX_SOURCE_BYTES
    ensures var d := EmptiedStore(text);
            Enabled(d, s) && Next(d, s) == SeizedStore(text)
    ensures var d := SeizedStore(text);
            Sane(d) && |Files(d)| == MAX_PLUGINS + 1 && |Visible(d)| == MAX_PLUGINS && CREATED in Visible(d)
  {
    hide NameOk, FirstNames, Refused, Enabled, Next, Visible, Sane, GONE, CREATED, Bytes, Files, Savable, CreatedConfig,
         Ready, Seized;
    var d := EmptiedStore(text);
    var _ := Emptying(text);
    SeizedConfig(text);
    SeizedFiles(text);
    CreationReady(text);
    s := WholeCreation(d, CREATED, text);
    UpdatedMap(Visible(d), CREATED, text);
  }

  /**
   A store can seize, and for good. With sixty-four source rules, deleting one and creating another leaves
   sixty-four rules and sixty-five files, so that no rule can be saved, created or reordered. Deleting the
   created rule would help; if a crash cuts that deletion off behind its first write, nothing helps any more.
   */
  lemma StoreCanSeize(text: Text) returns (full: Disk, steps: seq<Step>, seized: Disk, crash: Step, stuck: Disk)
    requires Bytes(text) <= MAX_SOURCE_BYTES
    ensures Sane(full) && |Files(full)| == |Visible(full)| == MAX_PLUGINS
    ensures Reaches(full, steps, seized) && |Files(seized)| == MAX_PLUGINS + 1 && |Visible(seized)| == MAX_PLUGINS
    ensures forall op: Op | op.Save? || op.Create? || op.Reorder? :: Refused(seized, op)
    ensures !NeverFree(seized)
    ensures Enabled(seized, crash) && stuck == Next(seized, crash) && |Visible(stuck)| < MAX_PLUGINS && NeverFree(stuck)
  {
    hide NameOk, FirstNames, Refused, Enabled, Next, Visible, Sane, FullStore, GONE, CREATED, Bytes, NeverFree, Stuck;
    full, seized := FullStore(text), SeizedStore(text);
    FullStoreIs(text);
    FirstNamesAre(MAX_PLUGINS);
    assert |Visible(full).Keys| == |Visible(full)|;
    var s1 := Emptying(text);
    var s2 := Creating(text);
    steps := [s1, s2];
    TwoStepsReach(full, s1, s2);
    forall op: Op | op.Save? || op.Create? || op.Reorder? ensures Refused(seized, op) {
      SeizedAddsNothing(seized, Step(op, 0));
    }
    SeizedForGoodExactly(seized);
    NotYetStuck(text);
    crash, stuck := Crashing(text);
  }

  lemma TwoStepsReach(d: Disk, s1: Step, s2: Step)
    requires Enabled(d, s1) && Enabled(Next(d, s1), s2)
    ensures Reaches(d, [s1, s2], Next(Next(d, s1), s2))
  {
    hide Enabled, Next;
    assert [s1, s2][1..] == [s2];
    OneStepReaches(Next(d, s1), s2);
  }

  lemma NotYetStuck(text: Text)
    ensures !Stuck(SeizedStore(text))
  {
    hide FullStore, GONE, CREATED;
    GoneAndCreated(text);
    assert CREATED in SeizedStore(text).overlay;
  }

  lemma Crashing(text: Text) returns (s: Step, stuck: Disk)
    requires Bytes(text) <= MAX_SOURCE_BYTES
    ensures Enabled(SeizedStore(text), s) && stuck == Next(SeizedStore(text), s)
    ensures |Visible(stuck)| < MAX_PLUGINS && NeverFree(stuck)
  {
    hide NameOk, FirstNames, Refused, Enabled, Next, Visible, Sane, FullStore, GONE, CREATED, Bytes, NeverFree;
    var d := SeizedStore(text);
    var _ := Creating(text);
    GoneAndCreated(text);
    s := FirstWriteOfDeletion(d, CREATED);
    stuck := Next(d, s);
    assert stuck.config.deleted == [GONE, CREATED];
    assert Stuck(stuck);
    assert Files(stuck) == Files(d);
    SeizedForGoodExactly(stuck);
    SetGrows(Visible(d).Keys, CREATED);
    assert (Visible(d) - {CREATED}).Keys == Visible(d).Keys - {CREATED};
    assert |(Visible(d) - {CREATED}).Keys| == |Visible(d) - {CREATED}| && |Visible(d).Keys| == |Visible(d)|;
  }
}
