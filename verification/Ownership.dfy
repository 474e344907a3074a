/** Which files of a checkout the code generator may write, over any sequence of generate and check runs
    that hand the manifest file on to each other. Extraction, rendering and validation are inputs: per
    output, what was rendered, what writing it does, and what comparing it says. */
module Ownership {
  import opened Manifest
  import opened Orders
  import opened Wrappers

  datatype WriteResult = Replaces | FailsValidation | WriteRaises
  datatype CompareResult = Same | Differs | CompareRaises

  /** An output: `write` is what `atomic_write` does, `compare` what `check_drift` says of an existing file. */
  datatype Rendering = Rendering(content: string, write: WriteResult, compare: CompareResult)

  datatype Wrapper = NoWrapper | UnsafeName | WrapperRaises | Wrapped(rendering: Rendering)

  /** `state` is `None` if rendering the state model raises, which ends the whole run. */
  datatype Domain = Domain(name: string, extracts: bool, state: Option<Rendering>, wrapper: Wrapper)

  datatype Constants = NoConstants | ConstantsRaise | HasConstants(rendering: Rendering)

  /** `manifest` is the text of the manifest file. `written` is a history: what `atomic_write` replaced or
      created in the current run. */
  datatype Checkout = Checkout(files: map<Path, string>, manifest: Option<string>, written: set<Path>)

  datatype Outcome = Outcome(generated: set<Path>, skipped: bool, rejected: bool, drift: bool, raised: bool)

  const NOTHING := Outcome({}, false, false, false, false)
  const RAISED := NOTHING.(raised := true)
  const SKIPPED := NOTHING.(skipped := true)

  /** What two steps of a run, one after the other, add up to. */
  function Combined(a: Outcome, b: Outcome): Outcome {
    Outcome(a.generated + b.generated, a.skipped || b.skipped, a.rejected || b.rejected,
            a.drift || b.drift, a.raised || b.raised)
  }

  function StatePath(name: string): Path { ModulePath("states", name) }
  function EntityPath(name: string): Path { ModulePath("entities", name) }
  const STATES_INIT := StatePath("__init__")
  const ENTITIES_INIT := EntityPath("__init__")
  const CONSTANTS: Path := "src/hassette/const/sensor.py"

  /** The outputs that are written without asking who owns them. */
  predicate Ungated(p: Path) { p == STATES_INIT || p == ENTITIES_INIT || p == CONSTANTS }

  /** What the manifest lists; nothing if there is none. */
  function Listed(c: Checkout): set<Path> {
    if c.manifest.Some? then Loaded(c.manifest.value) else {}
  }

  datatype Settings = Settings(check: bool, previous: set<Path>, tracked: bool)

  predicate MayOverwrite(c: Checkout, p: Path, s: Settings) {
    p !in c.files || !s.tracked || p in s.previous
  }

  /** `_check_or_write` of one output; its outcome is what it generated, whether it drifted, or an
      exception. */
  function CheckOrWrite(c: Checkout, p: Path, r: Rendering, s: Settings): (Checkout, Outcome) {
    if s.check then
      if p !in c.files then (c, NOTHING.(generated := {p}, drift := true))
      else if r.compare.CompareRaises? then (c, RAISED)
      else (c, NOTHING.(generated := {p}, drift := r.compare.Differs?))
    else
      match r.write
      case Replaces =>
        (c.(files := c.files[p := r.content], written := c.written + {p}), NOTHING.(generated := {p}))
      case FailsValidation => (c, NOTHING)
      case WriteRaises => (c, RAISED)
  }

  /** `_generate_files_for_domain` */
  function GenerateDomain(c: Checkout, d: Domain, s: Settings): (Checkout, Outcome) {
    if !d.extracts then (c, SKIPPED)
    else if d.state.None? then (c, RAISED)
    else if !s.check && !MayOverwrite(c, StatePath(d.name), s) then (c, SKIPPED)
    else
      var (c1, state) := CheckOrWrite(c, StatePath(d.name), d.state.value, s);
      if state.raised then (c1, RAISED)
      else if state.generated == {} then (c1, SKIPPED)
      else
        var (c2, wrapper) := GenerateWrapper(c1, d, s);
        (c2, if wrapper.rejected then state.(rejected := true, drift := false) else Combined(state, wrapper))
  }

  /** Its second half. A rejected wrapper forgets the drift of the state model. */
  function GenerateWrapper(c: Checkout, d: Domain, s: Settings): (Checkout, Outcome) {
    match d.wrapper
    case WrapperRaises => (c, RAISED)
    case UnsafeName => (c, NOTHING.(rejected := true))
    case NoWrapper => (c, NOTHING)
    case Wrapped(r) =>
      if !s.check && !MayOverwrite(c, EntityPath(d.name), s) then (c, NOTHING)
      else CheckOrWrite(c, EntityPath(d.name), r, s)
  }

  /** `_generate_domains`: stops where a domain raises. */
  function GenerateDomains(c: Checkout, domains: seq<Domain>, s: Settings): (Checkout, Outcome)
    decreases |domains|
  {
    if domains == [] then (c, NOTHING)
    else
      var (c1, sofar) := GenerateDomains(c, domains[..|domains| - 1], s);
      if sofar.raised then (c1, sofar)
      else
        var (c2, o) := GenerateDomain(c1, domains[|domains| - 1], s);
        (c2, Combined(sofar, o))
  }

  /** One invocation. No filter is the empty set, as the generator treats both alike. */
  datatype Invocation = Invocation(
    check: bool,
    filter: set<string>,
    domains: seq<Domain>,            // after name checks and filtering
    namesRejected: bool,             // a name check rejected a domain of the filter
    constants: Constants,
    upToDate: bool,                  // the ported predicate is up to date, or that is not checked
    statesInit: Option<Rendering>,   // `None` if rendering raises
    entitiesInit: Option<Rendering>)

  function SettingsOf(c: Checkout, i: Invocation): Settings {
    Settings(i.check, Listed(c), c.manifest.Some?)
  }

  function GenerateConstants(c: Checkout, constants: Constants, s: Settings): (Checkout, Outcome) {
    match constants
    case NoConstants => (c, NOTHING)
    case ConstantsRaise => (c, RAISED)
    case HasConstants(r) => CheckOrWrite(c, CONSTANTS, r, s)
  }

  function GenerateInit(c: Checkout, p: Path, rendered: Option<Rendering>, s: Settings): (Checkout, Outcome) {
    if rendered.None? then (c, RAISED) else CheckOrWrite(c, p, rendered.value, s)
  }

  /** `_generate_constants`, the freshness check and `_generate_package_inits`. */
  function GenerateUngated(c: Checkout, i: Invocation, s: Settings): (Checkout, Outcome) {
    var (c1, constants) := GenerateConstants(c, i.constants, s);
    if constants.raised then (c1, RAISED)
    else
      var (c2, states) := GenerateInit(c1, STATES_INIT, i.statesInit, s);
      if states.raised then (c2, RAISED)
      else
        var (c3, entities) := GenerateInit(c2, ENTITIES_INIT, i.entitiesInit, s);
        (c3, if entities.raised then RAISED
             else Combined(Combined(constants.(drift := constants.drift || !i.upToDate), states), entities))
  }

  /** How a run ends. */
  datatype Finish = Raised | ExitCode(code: int)

  /** `run_pipeline` */
  function RunPipeline(checkout: Checkout, i: Invocation, order: Order<Path>): (Checkout, Finish) {
    var c := checkout.(written := {});
    if i.filter != {} && i.domains == [] then (c, ExitCode(1))
    else
      var s := SettingsOf(c, i);
      var (c1, domains) := GenerateDomains(c, i.domains, s);
      if domains.raised then (c1, Raised)
      else
        var (c2, ungated) := GenerateUngated(c1, i, s);
        if ungated.raised then (c2, Raised)
        else
          var o := Combined(domains, ungated);
          (if i.check then c2 else c2.(manifest := Some(Save(order(ToList(s.previous, i.filter, o.generated))))),
           ExitCode(if i.check && (o.drift || o.skipped || o.rejected || i.namesRejected) then 1 else 0))
  }

  /** `_finalize_manifest`: a filtered run merges what it generated into what was listed. */
  function ToList(previous: set<Path>, filter: set<string>, generated: set<Path>): set<Path> {
    if filter != {} then Merge(previous, filter, generated) else generated
  }

  function RunAll(c: Checkout, runs: seq<Invocation>, order: Order<Path>): Checkout {
    if runs == [] then c else RunPipeline(RunAll(c, runs[..|runs| - 1], order), runs[|runs| - 1], order).0
  }

  // ----- The pipeline as it updates the disk -----

  class Disk {
    var files: map<Path, string>
    var manifest: Option<string>
    ghost var written: set<Path>

    ghost function State(): Checkout
      reads this
    {
      Checkout(files, manifest, written)
    }

    constructor (files: map<Path, string>, manifest: Option<string>)
      ensures State() == Checkout(files, manifest, {})
    {
      this.files, this.manifest, written := files, manifest, {};
    }

    /** Validates first; the file is replaced as a whole or not at all. */
    method AtomicWrite(p: Path, r: Rendering) returns (ok: bool)
      requires !r.write.WriteRaises?
      modifies this`files, this`written
      ensures ok == r.write.Replaces?
      ensures files == (if ok then old(files)[p := r.content] else old(files))
      ensures written == if ok then old(written) + {p} else old(written)
    {
      ok := r.write.Replaces?;
      if ok {
        files := files[p := r.content];
        written := written + {p};
      }
    }

    method Output(p: Path, r: Rendering, s: Settings) returns (o: Outcome)
      modifies this`files, this`written
      ensures (State(), o) == CheckOrWrite(old(State()), p, r, s)
    {
      if s.check {
        if p !in files {
          return NOTHING.(generated := {p}, drift := true);
        }
        if r.compare.CompareRaises? {
          return RAISED;
        }
        return NOTHING.(generated := {p}, drift := r.compare.Differs?);
      }
      if r.write.WriteRaises? {
        return RAISED;
      }
      var wrote := AtomicWrite(p, r);
      o := if wrote then NOTHING.(generated := {p}) else NOTHING;
    }

    method OneDomain(d: Domain, s: Settings) returns (o: Outcome)
      modifies this`files, this`written
      ensures (State(), o) == GenerateDomain(old(State()), d, s)
    {
      if !d.extracts {
        return SKIPPED;
      }
      if d.state.None? {
        return RAISED;
      }
      var statePath := StatePath(d.name);
      if !s.check && statePath in files && s.tracked && statePath !in s.previous {
        return SKIPPED;
      }
      var state := Output(statePath, d.state.value, s);
      if state.raised {
        return RAISED;
      }
      if state.generated == {} {
        return SKIPPED;
      }
      var wrapper := OneWrapper(d, s);
      o := if wrapper.rejected then state.(rejected := true, drift := false) else Combined(state, wrapper);
    }

    method OneWrapper(d: Domain, s: Settings) returns (o: Outcome)
      modifies this`files, this`written
      ensures (State(), o) == GenerateWrapper(old(State()), d, s)
    {
      match d.wrapper {
        case WrapperRaises => return RAISED;
        case UnsafeName => return NOTHING.(rejected := true);
        case NoWrapper => return NOTHING;
        case Wrapped(r) =>
          var entityPath := EntityPath(d.name);
          if !s.check && entityPath in files && s.tracked && entityPath !in s.previous {
            return NOTHING;
          }
          o := Output(entityPath, r, s);
      }
    }

    method AllDomains(domains: seq<Domain>, s: Settings) returns (o: Outcome)
      modifies this`files, this`written
      ensures (State(), o) == GenerateDomains(old(State()), domains, s)
    {
      o := NOTHING;
      for k := 0 to |domains|
        invariant (State(), o) == GenerateDomains(old(State()), domains[..k], s)
        invariant !o.raised
      {
        assert domains[..k + 1][..k] == domains[..k];
        var one := OneDomain(domains[k], s);
        o := Combined(o, one);
        if one.raised {
          RaisedPrefix(old(State()), domains, k + 1, s);
          return;
        }
      }
      assert domains[..|domains|] == domains;
    }

    method UngatedOutputs(i: Invocation, s: Settings) returns (o: Outcome)
      modifies this`files, this`written
      ensures (State(), o) == GenerateUngated(old(State()), i, s)
    {
      match i.constants {
        case NoConstants => o := NOTHING;
        case ConstantsRaise => return RAISED;
        case HasConstants(r) =>
          o := Output(CONSTANTS, r, s);
          if o.raised {
            return RAISED;
          }
      }
      if !i.upToDate {
        o := o.(drift := true);
      }
      if i.statesInit.None? {
        return RAISED;
      }
      var states := Output(STATES_INIT, i.statesInit.value, s);
      if states.raised || i.entitiesInit.None? {
        return RAISED;
      }
      var entities := Output(ENTITIES_INIT, i.entitiesInit.value, s);
      o := if entities.raised then RAISED else Combined(Combined(o, states), entities);
    }

    method Run(i: Invocation, order: Order<Path>) returns (finish: Finish)
      modifies this
      ensures (State(), finish) == RunPipeline(old(State()), i, order)
    {
      written := {};
      if i.filter != {} && i.domains == [] {
        return ExitCode(1);
      }
      var previous: set<Path> := {};
      if manifest.Some? {
        previous := Load(manifest.value);
      }
      var s := Settings(i.check, previous, manifest.Some?);
      var domains := AllDomains(i.domains, s);
      if domains.raised {
        return Raised;
      }
      var ungated := UngatedOutputs(i, s);
      if ungated.raised {
        return Raised;
      }
      var o := Combined(domains, ungated);
      if !i.check {
        manifest := Some(Save(order(ToList(previous, i.filter, o.generated))));
      }
      finish := ExitCode(if i.check && (o.drift || o.skipped || o.rejected || i.namesRejected) then 1 else 0);
    }
  }

  /** A domain that raises ends the loop: the rest does not run. */
  lemma {:induction false} RaisedPrefix(c: Checkout, domains: seq<Domain>, k: nat, s: Settings)
    requires k <= |domains| && GenerateDomains(c, domains[..k], s).1.raised
    ensures GenerateDomains(c, domains, s) == GenerateDomains(c, domains[..k], s)
    decreases |domains| - k
  {
    if k == |domains| {
      assert domains[..k] == domains;
    } else {
      assert domains[..k + 1][..k] == domains[..k];
      RaisedPrefix(c, domains, k + 1, s);
    }
  }

  // ----- One run -----

  /** What holds during a run that began in `start`: nothing that exists unlisted was written, and
      `--check` changed nothing. */
  ghost predicate Gated(start: Checkout, c: Checkout, s: Settings) {
    && c.manifest == start.manifest
    && (s.check ==> c == start)
    && start.files.Keys <= c.files.Keys
    && (s.tracked ==> forall p | p in start.files && p !in s.previous && !Ungated(p) ::
          c.files[p] == start.files[p] && p !in c.written)
  }

  /** What a step claims to have generated is what it wrote. */
  ghost predicate ClaimsWhatItWrote(c: Checkout, c': Checkout, o: Outcome, s: Settings) {
    !s.check && !o.raised ==> c'.written == c.written + o.generated
  }

  lemma OutputGated(start: Checkout, c: Checkout, p: Path, r: Rendering, s: Settings)
    requires Gated(start, c, s)
    requires !s.check ==> Ungated(p) || MayOverwrite(c, p, s)
    ensures var (c', o) := CheckOrWrite(c, p, r, s);
            Gated(start, c', s) && ClaimsWhatItWrote(c, c', o, s)
  {
  }

  lemma WrapperGated(start: Checkout, c: Checkout, d: Domain, s: Settings)
    requires Gated(start, c, s)
    ensures var (c', o) := GenerateWrapper(c, d, s);
            Gated(start, c', s) && ClaimsWhatItWrote(c, c', o, s) && (o.rejected ==> c' == c)
  {
    if d.wrapper.Wrapped? && (s.check || MayOverwrite(c, EntityPath(d.name), s)) {
      OutputGated(start, c, EntityPath(d.name), d.wrapper.rendering, s);
    }
  }

  lemma DomainGated(start: Checkout, c: Checkout, d: Domain, s: Settings)
    requires Gated(start, c, s)
    ensures var (c', o) := GenerateDomain(c, d, s);
            Gated(start, c', s) && ClaimsWhatItWrote(c, c', o, s)
  {
    if d.extracts && d.state.Some? && (s.check || MayOverwrite(c, StatePath(d.name), s)) {
      OutputGated(start, c, StatePath(d.name), d.state.value, s);
      WrapperGated(start, CheckOrWrite(c, StatePath(d.name), d.state.value, s).0, d, s);
    }
  }

  lemma {:induction false} DomainsGated(start: Checkout, c: Checkout, domains: seq<Domain>, s: Settings)
    requires Gated(start, c, s)
    ensures var (c', o) := GenerateDomains(c, domains, s);
            Gated(start, c', s) && ClaimsWhatItWrote(c, c', o, s)
    decreases |domains|
  {
    if domains != [] {
      var init := domains[..|domains| - 1];
      DomainsGated(start, c, init, s);
      var (c1, sofar) := GenerateDomains(c, init, s);
      if !sofar.raised {
        DomainGated(start, c1, domains[|domains| - 1], s);
      }
    }
  }

  lemma InitGated(start: Checkout, c: Checkout, p: Path, rendered: Option<Rendering>, s: Settings)
    requires Gated(start, c, s) && Ungated(p)
    ensures var (c', o) := GenerateInit(c, p, rendered, s);
            Gated(start, c', s) && ClaimsWhatItWrote(c, c', o, s)
  {
    if rendered.Some? {
      OutputGated(start, c, p, rendered.value, s);
    }
  }

  lemma UngatedGated(start: Checkout, c: Checkout, i: Invocation, s: Settings)
    requires Gated(start, c, s)
    ensures var (c', o) := GenerateUngated(c, i, s);
            Gated(start, c', s) && ClaimsWhatItWrote(c, c', o, s)
  {
    if i.constants.HasConstants? {
      OutputGated(start, c, CONSTANTS, i.constants.rendering, s);
    }
    var (c1, constants) := GenerateConstants(c, i.constants, s);
    if !constants.raised {
      InitGated(start, c1, STATES_INIT, i.statesInit, s);
      var (c2, states) := GenerateInit(c1, STATES_INIT, i.statesInit, s);
      InitGated(start, c2, ENTITIES_INIT, i.entitiesInit, s);
    }
  }

  // ----- What a run lists -----

  /** Names of domains are identifiers, which hold no line break. */
  predicate NamesOnOneLine(i: Invocation) { forall d | d in i.domains :: IsOneLine(d.name) }

  ghost predicate AllClean(s: set<Path>) { forall p | p in s :: Clean(p) }

  lemma ConstantsAreClean()
    ensures Clean(CONSTANTS)
  {
    assert CONSTANTS[0] == 's' && CONSTANTS[|CONSTANTS| - 1] == 'y';
  }

  lemma UngatedAreClean()
    ensures Clean(STATES_INIT) && Clean(ENTITIES_INIT) && Clean(CONSTANTS)
  {
    ModulePathIsClean("states", "__init__");
    ModulePathIsClean("entities", "__init__");
    ConstantsAreClean();
  }

  lemma DomainListsClean(c: Checkout, d: Domain, s: Settings)
    requires IsOneLine(d.name)
    ensures AllClean(GenerateDomain(c, d, s).1.generated)
  {
    ModulePathIsClean("states", d.name);
    ModulePathIsClean("entities", d.name);
  }

  lemma {:induction false} DomainsListClean(c: Checkout, domains: seq<Domain>, s: Settings)
    requires forall d | d in domains :: IsOneLine(d.name)
    ensures AllClean(GenerateDomains(c, domains, s).1.generated)
    decreases |domains|
  {
    if domains != [] {
      var init := domains[..|domains| - 1];
      DomainsListClean(c, init, s);
      DomainListsClean(GenerateDomains(c, init, s).0, domains[|domains| - 1], s);
    }
  }

  lemma UngatedListClean(c: Checkout, i: Invocation, s: Settings)
    ensures AllClean(GenerateUngated(c, i, s).1.generated)
  {
    UngatedAreClean();
  }

  /** The run is a generate run that got to its end. */
  predicate Completes(c: Checkout, i: Invocation, order: Order<Path>) {
    !i.check && RunPipeline(c, i, order).1 == ExitCode(0)
  }

  /** What is saved is loaded again: sorted or not, clean paths survive the file. */
  lemma SavedIsLoaded(s: set<Path>, order: Order<Path>)
    requires Sorts(order) && AllClean(s)
    ensures Loaded(Save(order(s))) == s
  {
    var paths := order(s);
    assert Lists(paths, s);
    ManifestRoundTrip(paths);
    assert (set p | p in paths) == s;
  }

  /** After a generate run that completes, the manifest file, read again, lists exactly what the run wrote,
      or, if it was filtered, that merged into what was listed before. */
  lemma ListsWhatItWrote(c: Checkout, i: Invocation, order: Order<Path>)
    requires Sorts(order) && NamesOnOneLine(i) && Completes(c, i, order)
    ensures var c' := RunPipeline(c, i, order).0;
            c'.manifest.Some? && Listed(c') == ToList(Listed(c), i.filter, c'.written)
  {
    var start := c.(written := {});
    var s := SettingsOf(start, i);
    DomainsGated(start, start, i.domains, s);
    var (c1, domains) := GenerateDomains(start, i.domains, s);
    UngatedGated(start, c1, i, s);
    var (c2, ungated) := GenerateUngated(c1, i, s);
    var generated := domains.generated + ungated.generated;
    assert c2.written == generated;
    DomainsListClean(start, i.domains, s);
    UngatedListClean(c1, i, s);
    if c.manifest.Some? {
      WhatIsLoadedIsClean(c.manifest.value);
    }
    SavedIsLoaded(ToList(Listed(c), i.filter, generated), order);
  }

  /** A run that does not complete a generation leaves the manifest file alone. */
  lemma OtherRunsListNothing(c: Checkout, i: Invocation, order: Order<Path>)
    requires !Completes(c, i, order)
    ensures RunPipeline(c, i, order).0.manifest == c.manifest
  {
    var start := c.(written := {});
    var s := SettingsOf(start, i);
    DomainsGated(start, start, i.domains, s);
    UngatedGated(start, GenerateDomains(start, i.domains, s).0, i, s);
  }

  // ----- Whole histories -----

  /** A file that exists and is not the generator's. */
  ghost predicate Foreign(c: Checkout, p: Path) {
    p in c.files && c.manifest.Some? && p !in Listed(c) && !Ungated(p)
  }

  lemma RunLeavesForeign(c: Checkout, i: Invocation, p: Path, order: Order<Path>)
    requires Foreign(c, p)
    ensures var c' := RunPipeline(c, i, order).0;
            p in c'.files && c'.files[p] == c.files[p] && p !in c'.written
  {
    var start := c.(written := {});
    var s := SettingsOf(start, i);
    DomainsGated(start, start, i.domains, s);
    UngatedGated(start, GenerateDomains(start, i.domains, s).0, i, s);
  }

  lemma RunKeepsForeign(c: Checkout, i: Invocation, p: Path, order: Order<Path>)
    requires Sorts(order) && NamesOnOneLine(i) && Foreign(c, p)
    ensures var c' := RunPipeline(c, i, order).0;
            Foreign(c', p) && c'.files[p] == c.files[p]
  {
    RunLeavesForeign(c, i, p, order);
    if Completes(c, i, order) {
      ListsWhatItWrote(c, i, order);
    } else {
      OtherRunsListNothing(c, i, order);
    }
  }

  /** On a checkout with a manifest, a file that exists, is not listed and is not one of the three ungated
      outputs is never changed and never becomes listed, by any sequence of generate and check runs with
      any filters, runs that end in an exception included. Each run reads the manifest file as the one
      before it left it. */
  lemma {:induction false} ForeignFilesAreSafe(c: Checkout, runs: seq<Invocation>, p: Path, order: Order<Path>)
    requires Sorts(order) && Foreign(c, p) && forall i | i in runs :: NamesOnOneLine(i)
    ensures Foreign(RunAll(c, runs, order), p) && RunAll(c, runs, order).files[p] == c.files[p]
  {
    if runs != [] {
      var earlier := runs[..|runs| - 1];
      ForeignFilesAreSafe(c, earlier, p, order);
      RunKeepsForeign(RunAll(c, earlier, order), runs[|runs| - 1], p, order);
    }
  }

  /** A check run changes neither files nor manifest. */
  lemma CheckChangesNothing(c: Checkout, i: Invocation, order: Order<Path>)
    requires i.check
    ensures var c' := RunPipeline(c, i, order).0; c'.files == c.files && c'.manifest == c.manifest
  {
    var start := c.(written := {});
    var s := SettingsOf(start, i);
    DomainsGated(start, start, i.domains, s);
    UngatedGated(start, GenerateDomains(start, i.domains, s).0, i, s);
  }

  /** Across runs: a file a full generate run did not write, because its domain was skipped, say, or its
      new content failed validation, is disowned by that run, and no later run ever changes it. */
  lemma NotWrittenIsFrozen(c: Checkout, i: Invocation, later: seq<Invocation>, p: Path, order: Order<Path>)
    requires Sorts(order) && NamesOnOneLine(i) && forall r | r in later :: NamesOnOneLine(r)
    requires i.filter == {} && Completes(c, i, order)
    requires var c' := RunPipeline(c, i, order).0; p in c'.files && p !in c'.written && !Ungated(p)
    ensures var c' := RunPipeline(c, i, order).0;
            var end := RunAll(c', later, order);
            Foreign(end, p) && end.files[p] == c'.files[p]
  {
    ListsWhatItWrote(c, i, order);
    ForeignFilesAreSafe(RunPipeline(c, i, order).0, later, p, order);
  }

  /** Across runs: a filtered run disowns a module that it does not write again exactly if the filter holds
      the module's name, a directory on the way to it, `models`, say, or a run of these. What it disowns is
      frozen like any other file that is not the generator's. */
  lemma FilteredRunDisowns(c: Checkout, i: Invocation, later: seq<Invocation>, directory: string, name: string,
                           order: Order<Path>)
    requires Sorts(order) && NamesOnOneLine(i) && forall r | r in later :: NamesOnOneLine(r)
    requires i.filter != {} && Completes(c, i, order) && IsName(directory) && IsName(name)
    requires var c', p := RunPipeline(c, i, order).0, ModulePath(directory, name);
             p in c'.files && p in Listed(c) && p !in c'.written && !Ungated(p)
    ensures var c', p := RunPipeline(c, i, order).0, ModulePath(directory, name);
            var end := RunAll(c', later, order);
            && (p in Listed(c') <==> i.filter !! NamesOnTheWay(directory, name))
            && (p !in Listed(c') ==> Foreign(end, p) && end.files[p] == c'.files[p])
  {
    var c', p := RunPipeline(c, i, order).0, ModulePath(directory, name);
    ListsWhatItWrote(c, i, order);
    MergeKeepsOthers(Listed(c), i.filter, c'.written, directory, name);
    if p !in Listed(c') {
      ForeignFilesAreSafe(c', later, p, order);
    }
  }

  // ----- A run that disowns a module of another domain -----

  /** The manifest lists this file, which exists, and no other. */
  function WithOne(p: Path, content: string, order: Order<Path>): Checkout {
    Checkout(map[p := content], Some(Save(order({p}))), {})
  }

  /** A run for `light,models`. */
  function LightRun(r: Rendering): Invocation {
    Invocation(false, {"light", "models"}, [Domain("light", true, Some(r), NoWrapper)], false,
               NoConstants, true, Some(r), Some(r))
  }

  ghost predicate Untouched(c: Checkout, c': Checkout, p: Path) {
    p in c.files && p in c'.files && c'.files[p] == c.files[p] && p !in c'.written
  }

  lemma LightIsWritten(c: Checkout, r: Rendering, s: Settings)
    requires r.write.Replaces? && !s.check && StatePath("light") !in c.files
    ensures GenerateDomains(c, LightRun(r).domains, s) == CheckOrWrite(c, StatePath("light"), r, s)
  {
    var light, domains := StatePath("light"), LightRun(r).domains;
    assert domains[..0] == [];
    assert GenerateDomains(c, domains[..0], s) == (c, NOTHING);
    var (c', o) := CheckOrWrite(c, light, r, s);
    assert light in o.generated && Combined(o, NOTHING) == o && Combined(NOTHING, o) == o;
    assert GenerateDomain(c, domains[0], s) == (c', o);
  }

  lemma LightLeavesOthers(p: Path, content: string, r: Rendering, order: Order<Path>)
    requires p != StatePath("light") && !Ungated(p) && r.write.Replaces?
    ensures Completes(WithOne(p, content, order), LightRun(r), order)
    ensures Untouched(WithOne(p, content, order), RunPipeline(WithOne(p, content, order), LightRun(r), order).0, p)
  {
    var c := WithOne(p, content, order);
    LightIsWritten(c, r, SettingsOf(c, LightRun(r)));
  }

  lemma StatePathIsOfOne(name: string)
    requires name != "light" && name != "__init__"
    ensures StatePath(name) != StatePath("light") && !Ungated(StatePath(name))
  {
    var n := |"src/hassette/models/states/"|;
    assert StatePath(name)[n..n + |name|] == name;
    assert StatePath("light")[n..n + 5] == "light";
    assert STATES_INIT[n..n + 8] == "__init__";
    assert StatePath(name)[21] == 't' && ENTITIES_INIT[21] == 'n';
    assert StatePath(name)[13] == 'm' && CONSTANTS[13] == 'c';
  }

  lemma ModelsMatches(name: string, r: Rendering)
    ensures PathMatches(StatePath(name), LightRun(r).filter)
  {
    assert "/" + "models" + "/" <= StatePath(name)[12..];
    assert "models" in LightRun(r).filter && PathMatchesDomain(StatePath(name), "models");
  }

  /** The run gets to its end and does not touch the file, which was listed; still it disowns the file, and
      no later run ever changes it. */
  ghost predicate DisownedUntouched(c: Checkout, i: Invocation, p: Path, later: seq<Invocation>, order: Order<Path>) {
    var c' := RunPipeline(c, i, order).0;
    && p in Listed(c) && Completes(c, i, order) && Untouched(c, c', p)
    && Foreign(RunAll(c', later, order), p) && RunAll(c', later, order).files[p] == c.files[p]
  }

  lemma MatchedIsDisowned(c: Checkout, i: Invocation, later: seq<Invocation>, p: Path, order: Order<Path>)
    requires Sorts(order) && NamesOnOneLine(i) && forall r | r in later :: NamesOnOneLine(r)
    requires i.filter != {} && Completes(c, i, order) && PathMatches(p, i.filter) && !Ungated(p)
    requires p in Listed(c) && Untouched(c, RunPipeline(c, i, order).0, p)
    ensures DisownedUntouched(c, i, p, later, order)
  {
    ListsWhatItWrote(c, i, order);
    ForeignFilesAreSafe(RunPipeline(c, i, order).0, later, p, order);
  }

  lemma LightIsOnOneLine(r: Rendering)
    ensures NamesOnOneLine(LightRun(r))
  {
  }

  lemma OneIsListed(p: Path, content: string, order: Order<Path>)
    requires Sorts(order) && Clean(p)
    ensures p in Listed(WithOne(p, content, order))
  {
    SavedIsLoaded({p}, order);
  }

  /** The state model of any other domain is disowned untouched, so neither a run for that domain nor one for
      all of them ever updates it again. */
  lemma FilterForModelsDisownsOthers(
      name: string, content: string, r: Rendering, later: seq<Invocation>, order: Order<Path>)
    requires Sorts(order) && r.write.Replaces? && forall i | i in later :: NamesOnOneLine(i)
    requires IsOneLine(name) && name != "light" && name != "__init__"
    ensures DisownedUntouched(WithOne(StatePath(name), content, order), LightRun(r), StatePath(name), later, order)
  {
    var p := StatePath(name);
    var c := WithOne(p, content, order);
    StatePathIsOfOne(name);
    assert p in Listed(c) by {
      ModulePathIsClean("states", name);
      OneIsListed(p, content, order);
    }
    assert Completes(c, LightRun(r), order) && Untouched(c, RunPipeline(c, LightRun(r), order).0, p) by {
      LightLeavesOthers(p, content, r, order);
    }
    ModelsMatches(name, r);
    LightIsOnOneLine(r);
    MatchedIsDisowned(c, LightRun(r), later, p, order);
  }

  // ----- What a check run reports -----

  predicate IsCurrent(c: Checkout, p: Path, r: Rendering) { p in c.files && r.compare.Same? }

  /** Everything of the domain is rendered and is what the checkout holds. */
  predicate DomainIsCurrent(c: Checkout, d: Domain) {
    && d.extracts
    && d.state.Some? && IsCurrent(c, StatePath(d.name), d.state.value)
    && (d.wrapper.NoWrapper? || (d.wrapper.Wrapped? && IsCurrent(c, EntityPath(d.name), d.wrapper.rendering)))
  }

  predicate IsClean(o: Outcome) { !o.skipped && !o.rejected && !o.drift && !o.raised }

  lemma {:induction false} DomainsAreCurrent(c: Checkout, domains: seq<Domain>, s: Settings)
    requires s.check
    ensures GenerateDomains(c, domains, s).0 == c
    ensures IsClean(GenerateDomains(c, domains, s).1) <==> forall d | d in domains :: DomainIsCurrent(c, d)
    decreases |domains|
  {
    if domains != [] {
      var init, last := domains[..|domains| - 1], domains[|domains| - 1];
      DomainsAreCurrent(c, init, s);
      assert domains == init + [last];
      assert IsClean(GenerateDomain(c, last, s).1) <==> DomainIsCurrent(c, last);
    }
  }

  predicate UngatedAreCurrent(c: Checkout, i: Invocation) {
    && (i.constants.NoConstants? ||
        (i.constants.HasConstants? && IsCurrent(c, CONSTANTS, i.constants.rendering)))
    && i.upToDate
    && i.statesInit.Some? && IsCurrent(c, STATES_INIT, i.statesInit.value)
    && i.entitiesInit.Some? && IsCurrent(c, ENTITIES_INIT, i.entitiesInit.value)
  }

  /** A check run exits with 0 exactly if it looked at something, every name was accepted, every domain was
      extracted and rendered, and every output is what the checkout holds. */
  lemma CheckPassesExactly(c: Checkout, i: Invocation, order: Order<Path>)
    requires i.check
    ensures RunPipeline(c, i, order).1 == ExitCode(0) <==>
            && (i.filter == {} || i.domains != [])
            && !i.namesRejected
            && (forall d | d in i.domains :: DomainIsCurrent(c, d))
            && UngatedAreCurrent(c, i)
  {
    var start := c.(written := {});
    var s := SettingsOf(start, i);
    DomainsAreCurrent(start, i.domains, s);
    assert forall d | d in i.domains :: DomainIsCurrent(c, d) <==> DomainIsCurrent(start, d);
    var (_, ungated) := GenerateUngated(start, i, s);
    assert IsClean(ungated) <==> UngatedAreCurrent(start, i);
  }

  // ----- Names -----

  const RESERVED_BASENAMES: set<string> := {"base", "catalog", "input", "simple", "__init__"}

  predicate IsUnsafe(name: string, isIdentifier: string -> bool) { name in RESERVED_BASENAMES || !isIdentifier(name) }

  /** The names that are unsafe, or that are not, in their order. */
  function Pick(names: seq<string>, isIdentifier: string -> bool, unsafe: bool): seq<string> {
    if names == [] then []
    else
      var earlier, last := Pick(names[..|names| - 1], isIdentifier, unsafe), names[|names| - 1];
      if IsUnsafe(last, isIdentifier) == unsafe then earlier + [last] else earlier
  }

  /** `_reject_unsafe_domain_names` */
  method RejectUnsafeDomainNames(names: seq<string>, isIdentifier: string -> bool)
      returns (safe: seq<string>, rejected: seq<string>)
    ensures safe == Pick(names, isIdentifier, false) && rejected == Pick(names, isIdentifier, true)
  {
    safe, rejected := [], [];
    for k := 0 to |names|
      invariant safe == Pick(names[..k], isIdentifier, false) && rejected == Pick(names[..k], isIdentifier, true)
    {
      assert names[..k + 1][..k] == names[..k];
      if names[k] in RESERVED_BASENAMES {
        rejected := rejected + [names[k]];
      } else if !isIdentifier(names[k]) {
        rejected := rejected + [names[k]];
      } else {
        safe := safe + [names[k]];
      }
    }
    assert names[..|names|] == names;
  }

  /** Every name is kept or rejected, as often as it was given, and none is both. */
  lemma {:induction false} KeptOrRejected(names: seq<string>, isIdentifier: string -> bool)
    ensures multiset(Pick(names, isIdentifier, false)) + multiset(Pick(names, isIdentifier, true)) == multiset(names)
    ensures forall n | n in Pick(names, isIdentifier, true) :: IsReserved(n) || !isIdentifier(n)
    ensures forall n | n in Pick(names, isIdentifier, false) :: !IsReserved(n) && isIdentifier(n)
  {
    if names != [] {
      KeptOrRejected(names[..|names| - 1], isIdentifier);
      assert names == names[..|names| - 1] + [names[|names| - 1]];
    }
  }

  predicate IsReserved(name: string) {
    name == "base" || name == "catalog" || name == "input" || name == "simple" || name == "__init__"
  }

  /** `some` are elements of `all`, in the order in which they are there. */
  predicate InOrderOf(some: seq<string>, all: seq<string>) {
    some == [] ||
    (all != [] &&
     (InOrderOf(some, all[..|all| - 1]) ||
      (some[|some| - 1] == all[|all| - 1] && InOrderOf(some[..|some| - 1], all[..|all| - 1]))))
  }

  /** Both lists keep the order of the names. */
  lemma {:induction false} PickedInOrder(names: seq<string>, isIdentifier: string -> bool, unsafe: bool)
    ensures InOrderOf(Pick(names, isIdentifier, unsafe), names)
  {
    if names != [] {
      var earlier, last := names[..|names| - 1], names[|names| - 1];
      PickedInOrder(earlier, isIdentifier, unsafe);
      if IsUnsafe(last, isIdentifier) == unsafe {
        var picked := Pick(names, isIdentifier, unsafe);
        assert picked[..|picked| - 1] == Pick(earlier, isIdentifier, unsafe);
      }
    }
  }
}
