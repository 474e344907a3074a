/** What a generate run writes, exactly, from the checkout it started in. */
module OwnershipWrites {
  import opened Manifest
  import opened Orders
  import opened Ownership
  import opened Wrappers

  /** The generator may write what is not there, what the manifest lists, and, without a manifest, anything. */
  predicate MayWrite(start: Checkout, p: Path) {
    p !in start.files || start.manifest.None? || p in Loaded(start.manifest.value)
  }

  predicate StateIsWritten(start: Checkout, d: Domain) {
    d.extracts && d.state.Some? && d.state.value.write == Replaces && MayWrite(start, StatePath(d.name))
  }

  /** A wrapper is written only after its state model. */
  predicate WrapperIsWritten(start: Checkout, d: Domain) {
    && StateIsWritten(start, d)
    && d.wrapper.Wrapped? && d.wrapper.rendering.write == Replaces
    && MayWrite(start, EntityPath(d.name))
  }

  function StateWrites(start: Checkout, d: Domain): map<Path, string> {
    if StateIsWritten(start, d) then map[StatePath(d.name) := d.state.value.content] else map[]
  }

  function WrapperWrites(start: Checkout, d: Domain): map<Path, string> {
    if WrapperIsWritten(start, d) then map[EntityPath(d.name) := d.wrapper.rendering.content] else map[]
  }

  function DomainWrites(start: Checkout, d: Domain): map<Path, string> {
    StateWrites(start, d) + WrapperWrites(start, d)
  }

  function AllWrites(start: Checkout, domains: seq<Domain>): map<Path, string> {
    if domains == [] then map[]
    else AllWrites(start, domains[..|domains| - 1]) + DomainWrites(start, domains[|domains| - 1])
  }

  function OneWrite(p: Path, r: Rendering): map<Path, string> {
    if r.write == Replaces then map[p := r.content] else map[]
  }

  function ConstantsWrites(constants: Constants): map<Path, string> {
    if constants.HasConstants? then OneWrite(CONSTANTS, constants.rendering) else map[]
  }

  function UngatedWrites(i: Invocation): map<Path, string>
    requires i.statesInit.Some? && i.entitiesInit.Some?
  {
    ConstantsWrites(i.constants) + OneWrite(STATES_INIT, i.statesInit.value) +
    OneWrite(ENTITIES_INIT, i.entitiesInit.value)
  }

  ghost predicate DistinctNames(domains: seq<Domain>) {
    forall j, k | 0 <= j < k < |domains| :: domains[j].name != domains[k].name
  }

  // ----- Paths of modules -----

  lemma PathsDiffer(a: string, b: string)
    ensures StatePath(a) != EntityPath(b)
    ensures StatePath(a) == StatePath(b) ==> a == b
    ensures EntityPath(a) == EntityPath(b) ==> a == b
  {
    assert StatePath(a)[21] == 't' && EntityPath(b)[21] == 'n';
    NameIn("states", a);
    NameIn("states", b);
    NameIn("entities", a);
    NameIn("entities", b);
  }

  lemma NameIn(directory: string, name: string)
    ensures var p, n := ModulePath(directory, name), 21 + |directory|;
            |p| == n + |name| + 3 && p[n..|p| - 3] == name
  {
  }

  /** The paths of a domain. */
  predicate IsOf(p: Path, name: string) { p == StatePath(name) || p == EntityPath(name) }

  lemma {:induction false} WritesAreOf(start: Checkout, domains: seq<Domain>, p: Path)
    requires p in AllWrites(start, domains)
    ensures exists k :: 0 <= k < |domains| && IsOf(p, domains[k].name)
  {
    var n := |domains| - 1;
    if p in DomainWrites(start, domains[n]) {
      assert IsOf(p, domains[n].name);
    } else {
      WritesAreOf(start, domains[..n], p);
      var k :| 0 <= k < n && IsOf(p, domains[..n][k].name);
      assert IsOf(p, domains[k].name);
    }
  }

  /** What one domain writes no other domain of a run has written. */
  lemma OthersDoNotWrite(start: Checkout, domains: seq<Domain>, p: Path)
    requires domains != [] && DistinctNames(domains) && IsOf(p, domains[|domains| - 1].name)
    ensures p !in AllWrites(start, domains[..|domains| - 1])
  {
    var n := |domains| - 1;
    if p in AllWrites(start, domains[..n]) {
      WritesAreOf(start, domains[..n], p);
      var k :| 0 <= k < n && IsOf(p, domains[..n][k].name);
      PathsDiffer(domains[k].name, domains[n].name);
      PathsDiffer(domains[n].name, domains[k].name);
    }
  }

  // ----- The run -----

  /** Between `start` and `c` just this was written. */
  ghost predicate Wrote(start: Checkout, c: Checkout, writes: map<Path, string>) {
    c.files == start.files + writes && c.written == writes.Keys && c.manifest == start.manifest
  }

  lemma OneMoreWritten(start: Checkout, c: Checkout, writes: map<Path, string>, p: Path, r: Rendering, s: Settings)
    requires Wrote(start, c, writes) && !s.check && !CheckOrWrite(c, p, r, s).1.raised
    ensures Wrote(start, CheckOrWrite(c, p, r, s).0, writes + OneWrite(p, r))
  {
    assert writes + map[] == writes && writes + map[p := r.content] == writes[p := r.content];
  }

  /** What may be overwritten now is what might at the start, if this run has not written it. */
  lemma GateAtStart(start: Checkout, c: Checkout, writes: map<Path, string>, p: Path, s: Settings)
    requires Wrote(start, c, writes) && p !in writes && s == Settings(false, Listed(start), start.manifest.Some?)
    ensures MayOverwrite(c, p, s) <==> MayWrite(start, p)
  {
  }

  lemma WrapperWrite(start: Checkout, c: Checkout, writes: map<Path, string>, d: Domain, s: Settings)
    requires Wrote(start, c, writes) && s == Settings(false, Listed(start), start.manifest.Some?)
    requires EntityPath(d.name) !in writes && StateIsWritten(start, d)
    requires !GenerateWrapper(c, d, s).1.raised
    ensures Wrote(start, GenerateWrapper(c, d, s).0, writes + WrapperWrites(start, d))
  {
    GateAtStart(start, c, writes, EntityPath(d.name), s);
    assert writes + map[] == writes;
    if d.wrapper.Wrapped? && MayWrite(start, EntityPath(d.name)) {
      OneMoreWritten(start, c, writes, EntityPath(d.name), d.wrapper.rendering, s);
    }
  }

  lemma StateWritten(c: Checkout, d: Domain, s: Settings)
    requires !s.check && d.extracts && d.state.Some? && MayOverwrite(c, StatePath(d.name), s)
    requires d.state.value.write.Replaces?
    ensures var c1 := CheckOrWrite(c, StatePath(d.name), d.state.value, s).0;
            && GenerateDomain(c, d, s).0 == GenerateWrapper(c1, d, s).0
            && (GenerateWrapper(c1, d, s).1.raised ==> GenerateDomain(c, d, s).1.raised)
  {
    var (c1, o) := CheckOrWrite(c, StatePath(d.name), d.state.value, s);
    assert StatePath(d.name) in o.generated;
  }

  lemma StateNotWritten(c: Checkout, d: Domain, s: Settings)
    requires !s.check && !GenerateDomain(c, d, s).1.raised
    requires d.extracts && d.state.Some? && MayOverwrite(c, StatePath(d.name), s) ==> !d.state.value.write.Replaces?
    ensures GenerateDomain(c, d, s).0 == c
  {
  }

  lemma OneDomainWrites(start: Checkout, c: Checkout, writes: map<Path, string>, d: Domain, s: Settings)
    requires Wrote(start, c, writes) && s == Settings(false, Listed(start), start.manifest.Some?)
    requires StatePath(d.name) !in writes && EntityPath(d.name) !in writes && EntityPath(d.name) != StatePath(d.name)
    requires !GenerateDomain(c, d, s).1.raised
    ensures Wrote(start, GenerateDomain(c, d, s).0, writes + DomainWrites(start, d))
  {
    GateAtStart(start, c, writes, StatePath(d.name), s);
    if StateIsWritten(start, d) {
      StateWritten(c, d, s);
      OneMoreWritten(start, c, writes, StatePath(d.name), d.state.value, s);
      var c1, writes1 := CheckOrWrite(c, StatePath(d.name), d.state.value, s).0, writes + StateWrites(start, d);
      assert EntityPath(d.name) !in writes1;
      WrapperWrite(start, c1, writes1, d, s);
      Associate(writes, StateWrites(start, d), WrapperWrites(start, d));
    } else {
      StateNotWritten(c, d, s);
      Associate(writes, StateWrites(start, d), WrapperWrites(start, d));
    }
  }

  lemma Associate(a: map<Path, string>, b: map<Path, string>, c: map<Path, string>)
    ensures a + (b + c) == a + b + c
    ensures b == map[] && c == map[] ==> a + (b + c) == a
  {
  }

  lemma {:induction false} DomainsWrite(start: Checkout, domains: seq<Domain>, s: Settings)
    requires DistinctNames(domains) && start.written == {}
    requires s == Settings(false, Listed(start), start.manifest.Some?)
    requires !GenerateDomains(start, domains, s).1.raised
    ensures Wrote(start, GenerateDomains(start, domains, s).0, AllWrites(start, domains))
    decreases |domains|
  {
    if domains != [] {
      var init, last := domains[..|domains| - 1], domains[|domains| - 1];
      DomainsWrite(start, init, s);
      OthersDoNotWrite(start, domains, StatePath(last.name));
      OthersDoNotWrite(start, domains, EntityPath(last.name));
      PathsDiffer(last.name, last.name);
      OneDomainWrites(start, GenerateDomains(start, init, s).0, AllWrites(start, init), last, s);
    }
  }

  lemma InitWrite(start: Checkout, c: Checkout, writes: map<Path, string>, p: Path, r: Option<Rendering>, s: Settings)
    requires Wrote(start, c, writes) && !s.check && !GenerateInit(c, p, r, s).1.raised
    ensures r.Some? && Wrote(start, GenerateInit(c, p, r, s).0, writes + OneWrite(p, r.value))
  {
    OneMoreWritten(start, c, writes, p, r.value, s);
  }

  lemma ConstantsWrite(start: Checkout, c: Checkout, writes: map<Path, string>, constants: Constants, s: Settings)
    requires Wrote(start, c, writes) && !s.check && !GenerateConstants(c, constants, s).1.raised
    ensures Wrote(start, GenerateConstants(c, constants, s).0, writes + ConstantsWrites(constants))
  {
    assert writes + map[] == writes;
    if constants.HasConstants? {
      OneMoreWritten(start, c, writes, CONSTANTS, constants.rendering, s);
    }
  }

  lemma UngatedWrite(start: Checkout, c: Checkout, writes: map<Path, string>, i: Invocation, s: Settings)
    requires Wrote(start, c, writes) && !s.check && !GenerateUngated(c, i, s).1.raised
    ensures i.statesInit.Some? && i.entitiesInit.Some?
    ensures Wrote(start, GenerateUngated(c, i, s).0, writes + UngatedWrites(i))
  {
    ConstantsWrite(start, c, writes, i.constants, s);
    var c1, writes1 := GenerateConstants(c, i.constants, s).0, writes + ConstantsWrites(i.constants);
    InitWrite(start, c1, writes1, STATES_INIT, i.statesInit, s);
    var c2 := GenerateInit(c1, STATES_INIT, i.statesInit, s).0;
    InitWrite(start, c2, writes1 + OneWrite(STATES_INIT, i.statesInit.value), ENTITIES_INIT, i.entitiesInit, s);
    AssociateAll(writes, ConstantsWrites(i.constants), OneWrite(STATES_INIT, i.statesInit.value),
                 OneWrite(ENTITIES_INIT, i.entitiesInit.value));
  }

  lemma AssociateAll(a: map<Path, string>, b: map<Path, string>, c: map<Path, string>, d: map<Path, string>)
    ensures a + (b + c + d) == a + b + c + d
  {
  }

  /** A generate run that completes changes just these files, to just this. */
  lemma RunWrites(c: Checkout, i: Invocation, order: Order<Path>)
    requires Completes(c, i, order) && DistinctNames(i.domains)
    ensures i.statesInit.Some? && i.entitiesInit.Some?
    ensures var c', writes := RunPipeline(c, i, order).0, AllWrites(c, i.domains) + UngatedWrites(i);
            c'.written == writes.Keys && c'.files == c.files + writes
  {
    var start := c.(written := {});
    var s := SettingsOf(start, i);
    DomainsWrite(start, i.domains, s);
    UngatedWrite(start, GenerateDomains(start, i.domains, s).0, AllWrites(start, i.domains), i, s);
    SameWrites(c, start, i.domains);
  }

  lemma {:induction false} SameWrites(c: Checkout, start: Checkout, domains: seq<Domain>)
    requires start.files == c.files && start.manifest == c.manifest
    ensures AllWrites(start, domains) == AllWrites(c, domains)
  {
    if domains != [] {
      SameWrites(c, start, domains[..|domains| - 1]);
    }
  }

  // ----- Domain by domain -----

  /** What is written to this path. */
  predicate IsWrittenTo(writes: map<Path, string>, p: Path, content: string) { p in writes && writes[p] == content }

  ghost predicate WritesOf(start: Checkout, d: Domain, writes: map<Path, string>) {
    && (StatePath(d.name) in writes <==> StateIsWritten(start, d))
    && (StateIsWritten(start, d) ==> IsWrittenTo(writes, StatePath(d.name), d.state.value.content))
    && (EntityPath(d.name) in writes <==> WrapperIsWritten(start, d))
    && (WrapperIsWritten(start, d) ==> IsWrittenTo(writes, EntityPath(d.name), d.wrapper.rendering.content))
  }

  lemma LastWrites(start: Checkout, d: Domain, writes: map<Path, string>)
    requires StatePath(d.name) !in writes && EntityPath(d.name) !in writes && StatePath(d.name) != EntityPath(d.name)
    ensures WritesOf(start, d, writes + DomainWrites(start, d))
  {
  }

  lemma EarlierWrites(start: Checkout, d: Domain, last: Domain, writes: map<Path, string>)
    requires WritesOf(start, d, writes) && d.name != last.name
    ensures WritesOf(start, d, writes + DomainWrites(start, last))
  {
    PathsDiffer(d.name, last.name);
    PathsDiffer(last.name, d.name);
    assert StatePath(d.name) !in DomainWrites(start, last) && EntityPath(d.name) !in DomainWrites(start, last);
  }

  lemma {:induction false} LookUp(start: Checkout, domains: seq<Domain>, k: nat)
    requires DistinctNames(domains) && k < |domains|
    ensures WritesOf(start, domains[k], AllWrites(start, domains))
  {
    var n := |domains| - 1;
    if k == n {
      OthersDoNotWrite(start, domains, StatePath(domains[n].name));
      OthersDoNotWrite(start, domains, EntityPath(domains[n].name));
      PathsDiffer(domains[n].name, domains[n].name);
      LastWrites(start, domains[n], AllWrites(start, domains[..n]));
    } else {
      assert domains[..n][k] == domains[k];
      LookUp(start, domains[..n], k);
      EarlierWrites(start, domains[k], domains[n], AllWrites(start, domains[..n]));
    }
  }

  lemma NotUngated(name: string)
    requires name != "__init__"
    ensures !Ungated(StatePath(name)) && !Ungated(EntityPath(name))
  {
    PathsDiffer(name, "__init__");
    PathsDiffer("__init__", name);
    assert StatePath(name)[13] == 'm' && EntityPath(name)[13] == 'm' && CONSTANTS[13] == 'c';
  }

  /** A generate run that completes writes the state model of a domain, with the content that was rendered,
      exactly if the domain was extracted, the rendering validates, and the file was not there, or there was
      no manifest, or the manifest listed it; and the wrapper exactly if there is one of which the same holds
      and the state model was written. Names are distinct, and the name check rejects `__init__`. */
  lemma RegeneratesWhatItOwns(c: Checkout, i: Invocation, order: Order<Path>, k: nat)
    requires Completes(c, i, order) && DistinctNames(i.domains)
    requires k < |i.domains| && i.domains[k].name != "__init__"
    ensures var c', d := RunPipeline(c, i, order).0, i.domains[k];
            && (StatePath(d.name) in c'.written <==> StateIsWritten(c, d))
            && (StateIsWritten(c, d) ==> IsWrittenTo(c'.files, StatePath(d.name), d.state.value.content))
            && (EntityPath(d.name) in c'.written <==> WrapperIsWritten(c, d))
            && (WrapperIsWritten(c, d) ==> IsWrittenTo(c'.files, EntityPath(d.name), d.wrapper.rendering.content))
  {
    RunWrites(c, i, order);
    LookUp(c, i.domains, k);
    NotUngated(i.domains[k].name);
    OnlyUngated(i, StatePath(i.domains[k].name));
    OnlyUngated(i, EntityPath(i.domains[k].name));
  }

  lemma OnlyUngated(i: Invocation, p: Path)
    requires i.statesInit.Some? && i.entitiesInit.Some? && !Ungated(p)
    ensures p !in UngatedWrites(i)
  {
  }

  /** It writes nothing else but the three outputs that are written without asking. */
  lemma WritesNothingElse(c: Checkout, i: Invocation, order: Order<Path>, p: Path)
    requires Completes(c, i, order) && DistinctNames(i.domains)
    ensures var c' := RunPipeline(c, i, order).0;
            && (p in c'.written && !Ungated(p) ==> exists k :: 0 <= k < |i.domains| && IsOf(p, i.domains[k].name))
            && (p !in c'.written ==> (p in c'.files <==> p in c.files))
            && (p !in c'.written && p in c.files ==> c'.files[p] == c.files[p])
  {
    RunWrites(c, i, order);
    if p in AllWrites(c, i.domains) {
      WritesAreOf(c, i.domains, p);
    } else if !Ungated(p) {
      OnlyUngated(i, p);
    }
  }

  // ----- Which runs complete -----

  predicate WriteFails(start: Checkout, p: Path, r: Rendering) { MayWrite(start, p) && r.write == WriteRaises }

  /** The state model cannot be rendered, a file that may be written cannot be, or the wrapper cannot be
      rendered. */
  predicate DomainFails(start: Checkout, d: Domain) {
    && d.extracts
    && (|| d.state.None?
        || WriteFails(start, StatePath(d.name), d.state.value)
        || (StateIsWritten(start, d) &&
            (d.wrapper.WrapperRaises? ||
             (d.wrapper.Wrapped? && WriteFails(start, EntityPath(d.name), d.wrapper.rendering)))))
  }

  predicate UngatedFail(i: Invocation) {
    || i.constants.ConstantsRaise?
    || (i.constants.HasConstants? && i.constants.rendering.write == WriteRaises)
    || i.statesInit.None? || i.statesInit.value.write == WriteRaises
    || i.entitiesInit.None? || i.entitiesInit.value.write == WriteRaises
  }

  lemma OneDomainFails(start: Checkout, c: Checkout, writes: map<Path, string>, d: Domain, s: Settings)
    requires Wrote(start, c, writes) && s == Settings(false, Listed(start), start.manifest.Some?)
    requires StatePath(d.name) !in writes && EntityPath(d.name) !in writes && EntityPath(d.name) != StatePath(d.name)
    ensures GenerateDomain(c, d, s).1.raised <==> DomainFails(start, d)
  {
    GateAtStart(start, c, writes, StatePath(d.name), s);
    if StateIsWritten(start, d) {
      var (c1, o) := CheckOrWrite(c, StatePath(d.name), d.state.value, s);
      assert StatePath(d.name) in o.generated;
      OneMoreWritten(start, c, writes, StatePath(d.name), d.state.value, s);
      GateAtStart(start, c1, writes + StateWrites(start, d), EntityPath(d.name), s);
      assert GenerateDomain(c, d, s).1.raised <==> GenerateWrapper(c1, d, s).1.raised;
    }
  }

  lemma {:induction false} DomainsFail(start: Checkout, domains: seq<Domain>, s: Settings)
    requires DistinctNames(domains) && start.written == {}
    requires s == Settings(false, Listed(start), start.manifest.Some?)
    ensures GenerateDomains(start, domains, s).1.raised <==> exists d :: d in domains && DomainFails(start, d)
    decreases |domains|
  {
    if domains != [] {
      var init, last := domains[..|domains| - 1], domains[|domains| - 1];
      DomainsFail(start, init, s);
      assert domains == init + [last];
      if !GenerateDomains(start, init, s).1.raised {
        DomainsWrite(start, init, s);
        OthersDoNotWrite(start, domains, StatePath(last.name));
        OthersDoNotWrite(start, domains, EntityPath(last.name));
        PathsDiffer(last.name, last.name);
        OneDomainFails(start, GenerateDomains(start, init, s).0, AllWrites(start, init), last, s);
      }
    }
  }

  /** A generate run completes exactly if there is something to do and nothing that it has to render or
      write raises. */
  lemma CompletesExactly(c: Checkout, i: Invocation, order: Order<Path>)
    requires !i.check && DistinctNames(i.domains)
    ensures Completes(c, i, order) <==>
            && (i.filter == {} || i.domains != [])
            && (forall d | d in i.domains :: !DomainFails(c, d))
            && !UngatedFail(i)
  {
    var start := c.(written := {});
    var s := SettingsOf(start, i);
    DomainsFail(start, i.domains, s);
    forall d: Domain
      ensures DomainFails(start, d) <==> DomainFails(c, d)
    {
    }
    UngatedRaises(GenerateDomains(start, i.domains, s).0, i, s);
  }

  lemma UngatedRaises(c: Checkout, i: Invocation, s: Settings)
    requires !s.check
    ensures GenerateUngated(c, i, s).1.raised <==> UngatedFail(i)
  {
  }
}
