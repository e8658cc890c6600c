/** The registry as an object, and what holds over every sequence of its operations. */
module RegistryRuns {
  import opened Options
  import opened TextOrder
  import opened Registry

  class ExtensionRegistry {
    const maxTools: nat
    const checks: Checks
    var manifests: map<string, Manifest>
    var tools: map<string, Tool>
    var catalogRevision: nat

    ghost function View(): (result: Catalog)
      reads this
    {
      Catalog(maxTools, manifests, tools, catalogRevision)
    }

    ghost predicate Valid()
      reads this
    {
      Consistent(View())
    }

    constructor (maxTools: nat, checks: Checks)
      ensures View() == Catalog(maxTools, map[], map[], 0) && this.checks == checks
    {
      this.maxTools, this.checks := maxTools, checks;
      manifests, tools, catalogRevision := map[], map[], 0;
    }

    /** `__init__`: the built-in extensions go through `register` like any other, and then the revision restarts.
        There is no registry exactly when an error is raised. */
    static method Create(maxTools: int, skillCatalog: bool, checks: Checks)
      returns (registry: ExtensionRegistry?, error: Option<Error>)
      ensures error == StartRefusal(maxTools, skillCatalog, checks)
      ensures registry == null <==> error.Some?
      ensures registry != null ==>
                && fresh(registry) && registry.Valid() && registry.checks == checks
                && registry.View() == Start(maxTools, skillCatalog, checks)
    {
      hide Enable, EnableRefusal, Consistent;
      if !(1 <= maxTools <= MAX_TOOLS) { return null, Some(MaxToolsInvalid); }
      EmptyIsConsistent(maxTools);
      StartIsConsistent(maxTools, skillCatalog, checks);
      var r := new ExtensionRegistry(maxTools, checks);
      error := r.EnableBuiltin(skillCatalog, SKILL_READER);
      if error.Some? { return null, error; }
      var reader := maxTools - |r.tools| >= 2;
      error := r.EnableBuiltin(reader, SCHEMA_READER);
      if error.Some? { return null, error; }
      error := r.EnableBuiltin(reader && maxTools - |r.tools| >= 2, TOOL_SEARCH);
      if error.Some? { return null, error; }
      r.catalogRevision := 0;
      registry := r;
    }

    method EnableBuiltin(enabled: bool, b: Builtin) returns (error: Option<Error>)
      requires Valid()
      modifies this
      ensures Valid() && View() == Enable(old(View()), enabled, b, checks)
      ensures error == EnableRefusal(old(View()), enabled, b, checks)
    {
      hide Consistent, Registry.Register, Refusal;
      if !enabled { return None; }
      error := Register(ManifestOf(b), [Proper(ToolOf(b))], false);
    }

    /** `register`; the outcome is the error raised, if any. */
    method Register(manifest: Manifest, registrations: seq<Registration>, replaceExisting: bool) returns (error: Option<Error>)
      requires Valid()
      modifies this
      ensures Valid()
      ensures error == Refusal(old(View()), manifest, registrations, replaceExisting, checks)
      ensures View() == Registry.Register(old(View()), manifest, registrations, replaceExisting, checks)
    {
      hide Consistent, NewTools, LocalNames, CheckTools, ListsSorted, Elements;
      RegisterKeepsConsistent(View(), manifest, registrations, replaceExisting, checks);
      var id := checks.normalize(manifest.extensionId);
      if !checks.manifestOk(manifest) { return Some(ManifestInvalid); }
      if id.None? { return Some(IdInvalid); }
      if id.value != manifest.extensionId { return Some(IdNotNormalized); }
      if Reserved(id.value) && "mcp" !in manifest.capabilities { return Some(ReservedNamespace); }
      var localNames;
      error, localNames := CheckRegistrations(registrations, manifest.extensionId);
      if error.Some? { return; }
      if !ListsSorted(manifest.toolNames, localNames) { return Some(NamesMismatch); }
      error := RegisterLocked(manifest, registrations, localNames, replaceExisting);
    }

    /** The part of `register` under the registry lock. */
    method RegisterLocked(manifest: Manifest, registrations: seq<Registration>, localNames: set<string>, replaceExisting: bool)
      returns (error: Option<Error>)
      modifies this
      ensures error == LockedRefusal(old(View()), manifest, registrations, localNames, replaceExisting)
      ensures View() == if error.Some? then old(View()) else Committed(old(View()), manifest, registrations)
    {
      hide Elements;
      var id := manifest.extensionId;
      if id in manifests && !replaceExisting { return Some(AlreadyRegistered); }
      if replaceExisting && id !in manifests { return Some(NotRegistered); }
      var oldNames := if id in manifests then Elements(manifests[id].toolNames) else {};
      assert oldNames == OldNames(View(), id);
      if |tools| - |oldNames| + |registrations| > maxTools { return Some(CapacityExhausted); }
      if exists n :: n in localNames && n in tools && n !in oldNames { return Some(NameTaken); }
      Install(manifest, registrations, oldNames);
      error := None;
    }

    method CheckRegistrations(registrations: seq<Registration>, id: string) returns (error: Option<Error>, localNames: set<string>)
      ensures error == CheckTools(registrations, id, checks)
      ensures error.None? ==> localNames == LocalNames(registrations)
    {
      localNames := {};
      for i := 0 to |registrations|
        invariant localNames == LocalNames(registrations[..i])
        invariant CheckTools(registrations[..i], id, checks).None?
      {
        var r := registrations[i];
        assert registrations[..i + 1][..i] == registrations[..i];
        ghost var found := CheckTools(registrations[..i + 1], id, checks);
        if found.Some? { FirstErrorStands(registrations, i + 1, id, checks); }
        if r.Improper? { return Some(ToolTypeInvalid), localNames; }
        if !checks.specOk(r.tool.spec) { return Some(SpecInvalid), localNames; }
        if r.tool.spec.extensionId != id { return Some(ExtensionMismatch), localNames; }
        if r.tool.spec.name in localNames { return Some(LocalDuplicate), localNames; }
        localNames := localNames + {r.tool.spec.name};
      }
      assert registrations[..|registrations|] == registrations;
      error := None;
    }

    method Install(manifest: Manifest, registrations: seq<Registration>, oldNames: set<string>)
      modifies this
      ensures manifests == old(manifests)[manifest.extensionId := manifest]
      ensures tools == (old(tools) - oldNames) + NewTools(registrations)
      ensures catalogRevision == old(catalogRevision) + 1
    {
      var names := oldNames;
      while names != {}
        invariant names <= oldNames && tools == old(tools) - (oldNames - names)
        invariant manifests == old(manifests) && catalogRevision == old(catalogRevision)
      {
        var name :| name in names;
        tools := tools - {name};
        names := names - {name};
      }
      assert oldNames - {} == oldNames;
      manifests := manifests[manifest.extensionId := manifest];
      ghost var kept := tools;
      for i := 0 to |registrations|
        invariant tools == kept + NewTools(registrations[..i])
        invariant manifests == old(manifests)[manifest.extensionId := manifest] && catalogRevision == old(catalogRevision)
      {
        assert registrations[..i + 1][..i] == registrations[..i];
        if registrations[i].Proper? {
          var tool := registrations[i].tool;
          tools := tools[tool.spec.name := tool];
        }
      }
      assert registrations[..|registrations|] == registrations;
      catalogRevision := catalogRevision + 1;
    }

    /** `unregister`; an invalid id raises and changes nothing. */
    method Unregister(extensionId: string) returns (removed: Option<bool>)
      requires Valid()
      modifies this
      ensures Valid()
      ensures View() == Registry.Unregister(old(View()), extensionId, checks)
      ensures removed == match checks.normalize(extensionId)
                         case None => None
                         case Some(id) => Some(id in old(manifests))
    {
      hide Consistent, Elements;
      UnregisterKeepsConsistent(View(), extensionId, checks);
      var id := checks.normalize(extensionId);
      if id.None? { return None; }
      if id.value !in manifests { return Some(false); }
      var manifest := manifests[id.value];
      assert OldNames(View(), id.value) == Elements(manifest.toolNames);
      manifests := manifests - {id.value};
      Forget(manifest.toolNames);
      catalogRevision := catalogRevision + 1;
      removed := Some(true);
    }

    method Forget(names: seq<string>)
      modifies `tools
      ensures tools == old(tools) - Elements(names)
    {
      for i := 0 to |names|
        invariant tools == old(tools) - Elements(names[..i])
      {
        assert Elements(names[..i + 1]) == Elements(names[..i]) + {names[i]};
        tools := tools - {names[i]};
      }
      assert names[..|names|] == names;
    }

    /** The lookup with its checks at the start of `invoke`. */
    method Authorize(name: string, effect: Option<string>, hash: Option<string>, revision: Option<int>) returns (r: Lookup)
      ensures r == Resolve(View(), name, effect, hash, revision, checks)
    {
      var normalized := checks.normalize(name);
      if normalized.None? { return Rejected(NameInvalid); }
      if hash.Some? && |hash.value| != 64 { return Rejected(HashInvalid); }
      if revision.Some? && revision.value != catalogRevision { return Rejected(CatalogChanged); }
      if normalized.value !in tools { return Rejected(ToolNotFound); }
      var tool := tools[normalized.value];
      if effect.Some? && tool.spec.effectClass != effect.value { return Rejected(EffectMismatch); }
      if hash.Some? && tool.spec.descriptorHash != hash.value { return Rejected(ToolChanged); }
      return Found(tool);
    }
  }

  lemma {:induction false} FirstErrorStands(regs: seq<Registration>, k: nat, id: string, checks: Checks)
    requires k <= |regs| && CheckTools(regs[..k], id, checks).Some?
    ensures CheckTools(regs, id, checks) == CheckTools(regs[..k], id, checks)
    decreases |regs|
  {
    if k == |regs| {
      assert regs[..k] == regs;
    } else {
      assert regs[..|regs| - 1][..k] == regs[..k];
      FirstErrorStands(regs[..|regs| - 1], k, id, checks);
    }
  }

  // ---------------------------------------------------------------- single operations

  /** A registration is visible in full, and touches no tool of another extension. */
  lemma RegisterEffect(c: Catalog, m: Manifest, regs: seq<Registration>, replaceExisting: bool, checks: Checks, n: string)
    requires Consistent(c) && Refusal(c, m, regs, replaceExisting, checks).None?
    ensures var d := Register(c, m, regs, replaceExisting, checks);
            && (n in m.toolNames ==> n in d.tools && n in NewTools(regs) && d.tools[n] == NewTools(regs)[n])
            && (n !in m.toolNames ==>
                 (n in d.tools <==> n in c.tools && c.tools[n].spec.extensionId != m.extensionId)
                 && (n in d.tools ==> d.tools[n] == c.tools[n]))
  {
    hide NewTools, CheckTools, LocalNames, StrictlyAscending, LockedRefusal;
    var d := Register(c, m, regs, replaceExisting, checks);
    assert d == Committed(c, m, regs) && CheckTools(regs, m.extensionId, checks).None? && Elements(m.toolNames) == LocalNames(regs);
    hide Registry.Register, Refusal;
    ToolsFromRegistrations(regs, m.extensionId, checks);
    if n in c.tools { OldNamesAreOwned(c, m.extensionId, n); }
    hide Consistent;
  }

  lemma OldNamesAreOwned(c: Catalog, id: string, n: string)
    requires Consistent(c) && n in c.tools
    ensures n in OldNames(c, id) <==> c.tools[n].spec.extensionId == id
  {
    assert OwnedBy(c.manifests, c.tools[n], n);
    if id in c.manifests && n in c.manifests[id].toolNames { assert Belongs(c.tools, n, id); }
  }

  lemma AddThenRemove(tools: map<string, Tool>, added: map<string, Tool>)
    requires tools.Keys !! added.Keys
    ensures ((tools - {}) + added) - added.Keys == tools
  {
  }

  lemma PutThenDrop(manifests: map<string, Manifest>, m: Manifest)
    requires m.extensionId !in manifests
    ensures manifests[m.extensionId := m] - {m.extensionId} == manifests
  {
  }

  lemma AcceptedMeans(c: Catalog, m: Manifest, regs: seq<Registration>, checks: Checks)
    requires Refusal(c, m, regs, false, checks).None?
    ensures checks.normalize(m.extensionId) == Some(m.extensionId) && m.extensionId !in c.manifests
    ensures CheckTools(regs, m.extensionId, checks).None? && Elements(m.toolNames) == LocalNames(regs)
    ensures forall n :: n in LocalNames(regs) ==> n !in c.tools
  {
    hide CheckTools, LocalNames, StrictlyAscending, Elements;
  }

  /** Unregistering right after a first registration restores both indexes. */
  lemma UnregisterUndoesRegister(c: Catalog, m: Manifest, regs: seq<Registration>, checks: Checks)
    requires Consistent(c) && Refusal(c, m, regs, false, checks).None?
    ensures var d := Unregister(Register(c, m, regs, false, checks), m.extensionId, checks);
            d.manifests == c.manifests && d.tools == c.tools && d.revision == c.revision + 2
  {
    hide NewTools, CheckTools, LocalNames, StrictlyAscending, Consistent, Elements, Refusal;
    AcceptedMeans(c, m, regs, checks);
    ToolsFromRegistrations(regs, m.extensionId, checks);
    PutThenDrop(c.manifests, m);
    AddThenRemove(c.tools, NewTools(regs));
    assert OldNames(Register(c, m, regs, false, checks), m.extensionId) == NewTools(regs).Keys;
  }

  /** A tool can be invoked by the name it was registered under exactly when that name is normal. */
  lemma ToolsResolveByNormalName(c: Catalog, n: string, checks: Checks)
    requires Consistent(c) && n in c.tools
    ensures Resolve(c, n, None, None, None, checks) == Found(c.tools[n]) <==> checks.normalize(n) == Some(n)
  {
    var r := checks.normalize(n);
    if r.Some? && r.value in c.tools {
      assert OwnedBy(c.manifests, c.tools[n], n) && OwnedBy(c.manifests, c.tools[r.value], r.value);
    }
  }

  // -------------------------------------------------------------------------- runs

  datatype Action = DoRegister(manifest: Manifest, registrations: seq<Registration>, replaceExisting: bool) | DoUnregister(id: string)

  function Apply(c: Catalog, a: Action, checks: Checks): (r: Catalog) {
    match a
    case DoRegister(m, regs, replaceExisting) => Register(c, m, regs, replaceExisting, checks)
    case DoUnregister(id) => Unregister(c, id, checks)
  }

  function Run(c: Catalog, actions: seq<Action>, checks: Checks): (r: Catalog)
    decreases |actions|
  {
    if actions == [] then c else Run(Apply(c, actions[0], checks), actions[1..], checks)
  }

  /** Every reachable catalog is consistent. */
  lemma {:induction false} RunKeepsConsistent(c: Catalog, actions: seq<Action>, checks: Checks)
    requires Consistent(c)
    ensures Consistent(Run(c, actions, checks)) && Run(c, actions, checks).maxTools == c.maxTools
    decreases |actions|
  {
    hide Consistent;
    if actions != [] {
      match actions[0] {
        case DoRegister(m, regs, replaceExisting) => RegisterKeepsConsistent(c, m, regs, replaceExisting, checks);
        case DoUnregister(id) => UnregisterKeepsConsistent(c, id, checks);
      }
      hide Register, Unregister;
      CapacityIsFixed(c, actions[0], checks);
      RunKeepsConsistent(Apply(c, actions[0], checks), actions[1..], checks);
    }
  }

  lemma CapacityIsFixed(c: Catalog, a: Action, checks: Checks)
    ensures Apply(c, a, checks).maxTools == c.maxTools
  {
  }

  /** A call either changes nothing or raises the revision by one. */
  lemma StepCounts(c: Catalog, a: Action, checks: Checks)
    ensures Apply(c, a, checks) == c || Apply(c, a, checks).revision == c.revision + 1
  {
  }

  /** Revisions only grow, and an unchanged revision means an unchanged catalog. */
  lemma {:induction false} RevisionIdentifiesCatalog(c: Catalog, actions: seq<Action>, checks: Checks)
    ensures var d := Run(c, actions, checks); d.revision >= c.revision && (d.revision == c.revision ==> d == c)
    decreases |actions|
  {
    if actions != [] {
      StepCounts(c, actions[0], checks);
      hide Apply;
      RevisionIdentifiesCatalog(Apply(c, actions[0], checks), actions[1..], checks);
    }
  }

  /** A call authorized at the revision of `c` runs later only against the very catalog it was
  authorized for; otherwise it is refused. */
  lemma InvokeSeesAuthorizedCatalog(c: Catalog, actions: seq<Action>, name: string,
      effect: Option<string>, hash: Option<string>, checks: Checks)
    ensures var later := Resolve(Run(c, actions, checks), name, effect, hash, Some(c.revision), checks);
            later == if checks.normalize(name).None? then Rejected(NameInvalid)
                     else if hash.Some? && |hash.value| != 64 then Rejected(HashInvalid)
                     else if Run(c, actions, checks) == c then Resolve(c, name, effect, hash, None, checks)
                     else Rejected(CatalogChanged)
  {
    RevisionIdentifiesCatalog(c, actions, checks);
    hide Run;
  }

  // ------------------------------------------------------------- an unreachable tool

  /** Normalization that knows one capital letter. */
  function LowerFoo(name: string): (normal: Option<string>) {
    if name == "Foo" then Some("foo") else Some(name)
  }

  const LENIENT := Checks(LowerFoo, (m: Manifest) => true, (s: Spec) => true)
  const FOO := Builtin("ext", "Foo", 7)

  /** The name checks accept "Foo", so it can be registered, but invoking it looks up "foo". */
  lemma CapitalNameIsUnreachable()
    ensures var c := Run(Start(1, false, LENIENT), [DoRegister(ManifestOf(FOO), [Proper(ToolOf(FOO))], false)], LENIENT);
            && "Foo" in c.tools && c.tools["Foo"] == ToolOf(FOO)
            && Resolve(c, "Foo", None, None, None, LENIENT) == Rejected(ToolNotFound)
  {
    hide Registry.Register;
    var a := DoRegister(ManifestOf(FOO), [Proper(ToolOf(FOO))], false);
    var c := Start(1, false, LENIENT);
    assert c == Catalog(1, map[], map[], 0);
    assert !Reserved("ext") && AcceptsBuiltin(LENIENT, FOO);
    BuiltinIsRegistered(c, FOO, LENIENT);
    assert [a][1..] == [];
    assert "foo"[0] != "Foo"[0];
  }
}
