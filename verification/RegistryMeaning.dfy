/** Exactly when the registry accepts, changes and resolves, on the given values alone. */
module RegistryMeaning {
  import opened Options
  import opened TextOrder
  import opened Registry
  import opened RegistryRuns

  // ------------------------------------------------------------------ the given tools

  /** What is wrong with the k-th registration, given the ones before it. */
  function FaultAt(regs: seq<Registration>, k: nat, id: string, checks: Checks): (error: Option<Error>)
    requires k < |regs|
  {
    match regs[k]
    case Improper => Some(ToolTypeInvalid)
    case Proper(tool) =>
      if !checks.specOk(tool.spec) then Some(SpecInvalid)
      else if tool.spec.extensionId != id then Some(ExtensionMismatch)
      else if exists i :: 0 <= i < k && regs[i].Proper? && regs[i].tool.spec.name == tool.spec.name then Some(LocalDuplicate)
      else None
  }

  lemma {:induction false} LocalNamesAre(regs: seq<Registration>, n: string)
    ensures n in LocalNames(regs) <==> exists i :: 0 <= i < |regs| && regs[i].Proper? && regs[i].tool.spec.name == n
  {
    if regs != [] {
      LocalNamesAre(regs[..|regs| - 1], n);
      assert forall i :: 0 <= i < |regs| - 1 ==> regs[..|regs| - 1][i] == regs[i];
    }
  }

  /** The first registration with a fault decides. */
  lemma {:induction false} FirstFaultDecides(regs: seq<Registration>, id: string, checks: Checks)
    ensures CheckTools(regs, id, checks).None? ==> forall k :: 0 <= k < |regs| ==> FaultAt(regs, k, id, checks).None?
    ensures CheckTools(regs, id, checks).Some? ==>
      exists k :: 0 <= k < |regs| && FaultAt(regs, k, id, checks) == CheckTools(regs, id, checks)
        && forall i :: 0 <= i < k ==> FaultAt(regs, i, id, checks).None?
  {
    if regs != [] {
      var n := |regs| - 1;
      var init := regs[..n];
      FirstFaultDecides(init, id, checks);
      forall k | 0 <= k < n ensures FaultAt(init, k, id, checks) == FaultAt(regs, k, id, checks) { SameFault(regs, n, k, id, checks); }
      if regs[n].Proper? { LocalNamesAre(init, regs[n].tool.spec.name); }
      assert CheckTools(init, id, checks).None? ==> CheckTools(regs, id, checks) == FaultAt(regs, n, id, checks) by {
        assert forall i :: 0 <= i < n ==> init[i] == regs[i];
      }
      hide FaultAt, CheckTools;
    }
  }

  lemma SameFault(regs: seq<Registration>, n: nat, k: nat, id: string, checks: Checks)
    requires k < n <= |regs|
    ensures FaultAt(regs[..n], k, id, checks) == FaultAt(regs, k, id, checks)
  {
    assert forall i :: 0 <= i <= k ==> regs[..n][i] == regs[i];
  }

  // ---------------------------------------------------------------------- acceptance

  /** The names the extension had. */
  function Had(c: Catalog, id: string): (names: seq<string>) {
    if id in c.manifests then c.manifests[id].toolNames else []
  }

  lemma {:induction false} AscendingHasNoRepeats(names: seq<string>)
    requires StrictlyAscending(names)
    ensures |Elements(names)| == |names|
  {
    if names == [] {
      assert Elements(names) == {};
    } else {
      var init, last := names[..|names| - 1], names[|names| - 1];
      AscendingHasNoRepeats(init);
      assert names == init + [last];
      assert Elements(names) == Elements(init) + {last};
      forall i | 0 <= i < |init| ensures init[i] != last { assert TextLess(names[i], names[|names| - 1]); TextTotal(init[i], last); }
      assert last !in Elements(init);
    }
  }

  /** The sorted names of the manifest are those of the given tools. */
  ghost predicate NamesAgree(m: Manifest, regs: seq<Registration>) {
    && (forall i, j :: 0 <= i < j < |m.toolNames| ==> TextLess(m.toolNames[i], m.toolNames[j]))
    && (forall n :: n in m.toolNames <==> exists i :: 0 <= i < |regs| && regs[i].Proper? && regs[i].tool.spec.name == n)
  }

  /** The id is valid, normal and not in the reserved namespace without the capability for it. */
  predicate IdAccepted(m: Manifest, checks: Checks) {
    && checks.manifestOk(m) && checks.normalize(m.extensionId) == Some(m.extensionId)
    && ("mcp." <= m.extensionId ==> "mcp" in m.capabilities)
  }

  /** There is room for the tools in place of those the extension had, and no other tool has one of their names. */
  ghost predicate RoomFor(c: Catalog, m: Manifest, regs: seq<Registration>) {
    && |c.tools| - |Had(c, m.extensionId)| + |regs| <= c.maxTools
    && (forall i :: 0 <= i < |regs| && regs[i].Proper? && regs[i].tool.spec.name in c.tools ==>
          regs[i].tool.spec.name in Had(c, m.extensionId))
  }

  /** A registration is accepted if and only if all of this holds. */
  lemma AcceptedExactly(c: Catalog, m: Manifest, regs: seq<Registration>, replaceExisting: bool, checks: Checks)
    requires Consistent(c)
    ensures Refusal(c, m, regs, replaceExisting, checks).None? <==>
      && IdAccepted(m, checks)
      && (forall k :: 0 <= k < |regs| ==> FaultAt(regs, k, m.extensionId, checks).None?)
      && NamesAgree(m, regs)
      && (replaceExisting <==> m.extensionId in c.manifests)
      && RoomFor(c, m, regs)
  {
    FirstFaultDecides(regs, m.extensionId, checks);
    forall n ensures n in LocalNames(regs) <==> exists i :: 0 <= i < |regs| && regs[i].Proper? && regs[i].tool.spec.name == n {
      LocalNamesAre(regs, n);
    }
    if m.extensionId in c.manifests { AscendingHasNoRepeats(c.manifests[m.extensionId].toolNames); }
    NamesAgreeMeans(m, regs);
    RoomForMeans(c, m, regs, replaceExisting);
    hide Consistent, FaultAt, CheckTools, LocalNames, NamesAgree, RoomFor, ListsSorted, LockedRefusal;
  }

  lemma NamesAgreeMeans(m: Manifest, regs: seq<Registration>)
    requires forall n :: n in LocalNames(regs) <==> exists i :: 0 <= i < |regs| && regs[i].Proper? && regs[i].tool.spec.name == n
    ensures NamesAgree(m, regs) <==> ListsSorted(m.toolNames, LocalNames(regs))
  {
    hide LocalNames;
    if NamesAgree(m, regs) { assert Elements(m.toolNames) == LocalNames(regs); }
    if ListsSorted(m.toolNames, LocalNames(regs)) { assert forall n :: n in Elements(m.toolNames) <==> n in LocalNames(regs); }
  }

  lemma RoomForMeans(c: Catalog, m: Manifest, regs: seq<Registration>, replaceExisting: bool)
    requires forall n :: n in LocalNames(regs) <==> exists i :: 0 <= i < |regs| && regs[i].Proper? && regs[i].tool.spec.name == n
    requires m.extensionId in c.manifests ==> |Elements(c.manifests[m.extensionId].toolNames)| == |c.manifests[m.extensionId].toolNames|
    ensures LockedRefusal(c, m, regs, LocalNames(regs), replaceExisting).None? <==>
      (replaceExisting <==> m.extensionId in c.manifests) && RoomFor(c, m, regs)
  {
    hide LocalNames;
    assert forall n :: n in OldNames(c, m.extensionId) <==> n in Had(c, m.extensionId);
  }

  // ------------------------------------------------------------------------- effects

  /** An accepted registration: the manifest under its id, its tools under their names with their handlers, every other
  extension's manifest and tools as before, one revision more. */
  lemma RegistrationIs(c: Catalog, m: Manifest, regs: seq<Registration>, replaceExisting: bool, checks: Checks)
    requires Consistent(c) && Refusal(c, m, regs, replaceExisting, checks).None?
    ensures var d := Register(c, m, regs, replaceExisting, checks);
            && d.manifests == c.manifests[m.extensionId := m] && d.revision == c.revision + 1 && d.maxTools == c.maxTools
            && (forall i :: 0 <= i < |regs| ==>
                  regs[i].Proper? && regs[i].tool.spec.name in d.tools && d.tools[regs[i].tool.spec.name] == regs[i].tool)
            && (forall n :: n in d.tools && n !in m.toolNames ==> n in c.tools && d.tools[n] == c.tools[n])
            && (forall n :: n in c.tools && c.tools[n].spec.extensionId != m.extensionId ==> n in d.tools && d.tools[n] == c.tools[n])
  {
    AcceptedExactly(c, m, regs, replaceExisting, checks);
    FirstFaultDecides(regs, m.extensionId, checks);
    forall n ensures n in m.toolNames ==> n in Register(c, m, regs, replaceExisting, checks).tools {
      RegisterEffect(c, m, regs, replaceExisting, checks, n);
    }
    forall i | 0 <= i < |regs|
      ensures regs[i].Proper? && regs[i].tool.spec.name in NewTools(regs) && NewTools(regs)[regs[i].tool.spec.name] == regs[i].tool
    {
      NewToolIs(regs, m.extensionId, checks, i);
    }
    hide Consistent, FaultAt, CheckTools, NewTools, Refusal, RoomFor, IdAccepted;
    assert Register(c, m, regs, replaceExisting, checks) == Committed(c, m, regs);
    forall n ensures var d := Register(c, m, regs, replaceExisting, checks);
                     && (n in d.tools && n !in m.toolNames ==> n in c.tools && d.tools[n] == c.tools[n])
                     && (n in c.tools && c.tools[n].spec.extensionId != m.extensionId ==> n in d.tools && d.tools[n] == c.tools[n])
    {
      RegisterEffect(c, m, regs, replaceExisting, checks, n);
      if n in m.toolNames { NewNameWasFree(c, m, regs, replaceExisting, checks, n); }
    }
    forall i | 0 <= i < |regs| ensures regs[i].tool.spec.name in m.toolNames { }
  }

  lemma NewNameWasFree(c: Catalog, m: Manifest, regs: seq<Registration>, replaceExisting: bool, checks: Checks, n: string)
    requires Consistent(c) && Refusal(c, m, regs, replaceExisting, checks).None? && n in m.toolNames
    ensures n in c.tools ==> c.tools[n].spec.extensionId == m.extensionId
  {
    AcceptedExactly(c, m, regs, replaceExisting, checks);
    if n in c.tools {
      var i :| 0 <= i < |regs| && regs[i].Proper? && regs[i].tool.spec.name == n;
      assert n in Had(c, m.extensionId);
      OldNamesAreOwned(c, m.extensionId, n);
    }
  }

  lemma {:induction false} NewToolIs(regs: seq<Registration>, id: string, checks: Checks, i: nat)
    requires CheckTools(regs, id, checks).None? && i < |regs|
    ensures regs[i].Proper? && regs[i].tool.spec.name in NewTools(regs) && NewTools(regs)[regs[i].tool.spec.name] == regs[i].tool
  {
    var n := |regs| - 1;
    if i < n {
      NewToolIs(regs[..n], id, checks, i);
      LocalNamesAre(regs[..n], regs[n].tool.spec.name);
      assert regs[..n][i] == regs[i];
    }
  }

  /** Unregistering a known extension takes out its manifest and exactly its tools, one revision later; any other id
  changes nothing. */
  lemma UnregistrationIs(c: Catalog, extensionId: string, checks: Checks)
    requires Consistent(c)
    ensures var id, d := checks.normalize(extensionId), Unregister(c, extensionId, checks);
            if id.None? || id.value !in c.manifests then d == c
            else
              && d.manifests == c.manifests - {id.value} && d.revision == c.revision + 1 && d.maxTools == c.maxTools
              && forall n :: (n in d.tools <==> n in c.tools && c.tools[n].spec.extensionId != id.value)
                             && (n in d.tools ==> d.tools[n] == c.tools[n])
  {
    var id := checks.normalize(extensionId);
    if id.Some? && id.value in c.manifests {
      forall n | n in c.tools ensures n in OldNames(c, id.value) <==> c.tools[n].spec.extensionId == id.value {
        OldNamesAreOwned(c, id.value, n);
      }
      hide Consistent, OldNames;
    }
  }

  // -------------------------------------------------------------------- construction

  /** The flat checks pass for the host's own extension `id` and its one tool `name`. */
  predicate Sound(checks: Checks, id: string, name: string) {
    && checks.manifestOk(Manifest(id, {"read_only"}, [name])) && checks.normalize(id) == Some(id)
    && checks.specOk(Spec(name, id, "", "read_only", ""))
  }

  lemma EnabledExactly(c: Catalog, enabled: bool, b: Builtin, checks: Checks)
    requires b.id !in c.manifests && b.name !in c.tools && !Reserved(b.id) && (enabled ==> |c.tools| < c.maxTools)
    ensures EnableRefusal(c, enabled, b, checks).None? <==> (enabled ==> Sound(checks, b.id, b.name))
  {
    if enabled && Sound(checks, b.id, b.name) { EnableAdds(c, enabled, b, checks); }
    var regs := [Proper(ToolOf(b))];
    assert regs[..0] == [];
    assert CheckTools([], b.id, checks).None?;
    if enabled && !checks.specOk(ToolOf(b).spec) { assert CheckTools(regs, b.id, checks).Some?; }
    hide CheckTools, LockedRefusal, ListsSorted;
  }

  /** There is a registry exactly if the capacity is in range and the checks pass for each built-in extension that has
  room: the skill reader where there is a skill catalog, schema lookup with a place to spare, and search with another. */
  lemma StartsExactly(maxTools: int, skillCatalog: bool, checks: Checks)
    ensures var free := maxTools - if skillCatalog then 1 else 0;
            StartRefusal(maxTools, skillCatalog, checks).None? <==>
              && 1 <= maxTools <= 4096
              && (skillCatalog ==> Sound(checks, "core.skills", "aegis.skills.read"))
              && (free >= 2 ==> Sound(checks, "core.tool_schemas", "aegis.tools.schema"))
              && (free >= 3 ==> Sound(checks, "core.tool_search", "aegis.tools.search"))
  {
    BuiltinsDiffer();
    BuiltinsAreFree(SKILL_READER);
    BuiltinsAreFree(SCHEMA_READER);
    BuiltinsAreFree(TOOL_SEARCH);
    hide PopulateRefusal, Reserved, Sound, Differ;
    if 1 <= maxTools <= 4096 { PopulatesExactly(maxTools, skillCatalog, SKILL_READER, SCHEMA_READER, TOOL_SEARCH, checks); }
  }

  lemma BuiltinsAreFree(b: Builtin)
    requires b.id != "" && b.id[0] == 'c'
    ensures !Reserved(b.id)
  {
    assert "mcp."[0] != b.id[0];
  }

  lemma PopulatesExactly(maxTools: nat, skillCatalog: bool, a: Builtin, b: Builtin, s: Builtin, checks: Checks)
    requires 1 <= maxTools && Differ(a, b) && Differ(a, s) && Differ(b, s) && !Reserved(a.id) && !Reserved(b.id) && !Reserved(s.id)
    ensures var free := maxTools - if skillCatalog then 1 else 0;
            PopulateRefusal(maxTools, skillCatalog, a, b, s, checks).None? <==>
              && (skillCatalog ==> Sound(checks, a.id, a.name))
              && (free >= 2 ==> Sound(checks, b.id, b.name))
              && (free >= 3 ==> Sound(checks, s.id, s.name))
  {
    hide Enable, EnableRefusal, Reserved, Sound;
    var empty := Catalog(maxTools, map[], map[], 0);
    EnabledExactly(empty, skillCatalog, a, checks);
    if EnableRefusal(empty, skillCatalog, a, checks).None? {
      Adds(empty, skillCatalog, a, checks);
      var skills := Enable(empty, skillCatalog, a, checks);
      var reader := maxTools - |skills.tools| >= 2;
      EnabledExactly(skills, reader, b, checks);
      if EnableRefusal(skills, reader, b, checks).None? {
        Adds(skills, reader, b, checks);
        var schemas := Enable(skills, reader, b, checks);
        EnabledExactly(schemas, reader && maxTools - |schemas.tools| >= 2, s, checks);
      }
    }
  }

  lemma Adds(c: Catalog, enabled: bool, b: Builtin, checks: Checks)
    requires b.id !in c.manifests && b.name !in c.tools && !Reserved(b.id) && (enabled ==> |c.tools| < c.maxTools)
    requires enabled ==> Sound(checks, b.id, b.name)
    ensures var d := Enable(c, enabled, b, checks);
            && d.maxTools == c.maxTools
            && (forall id :: id in d.manifests <==> id in c.manifests || (enabled && id == b.id))
            && (forall n :: n in d.tools <==> n in c.tools || (enabled && n == b.name))
            && |d.tools| == |c.tools| + if enabled then 1 else 0
  {
    if enabled { EnableAdds(c, enabled, b, checks); }
  }

  // -------------------------------------------------------------------------- lookup

  /** `invoke` finds a tool exactly if the name's normal form is registered and each given expectation, of the revision,
  the effect or the descriptor hash, equals what is there; the error named is the first that applies. */
  lemma ResolveIs(c: Catalog, name: string, effect: Option<string>, hash: Option<string>, revision: Option<int>, checks: Checks, tool: Tool)
    ensures var r, n := Resolve(c, name, effect, hash, revision, checks), checks.normalize(name);
            && (r == Found(tool) <==>
                  && n.Some? && n.value in c.tools && c.tools[n.value] == tool
                  && (revision.None? || revision == Some(c.revision))
                  && (effect.None? || effect == Some(tool.spec.effectClass))
                  && (hash.None? || (hash == Some(tool.spec.descriptorHash) && |tool.spec.descriptorHash| == 64)))
            && (r == Rejected(NameInvalid) <==> n.None?)
            && (r == Rejected(HashInvalid) <==> n.Some? && hash.Some? && |hash.value| != 64)
            && (r == Rejected(CatalogChanged) ==> revision.Some? && revision.value != c.revision)
            && (r == Rejected(ToolNotFound) ==> n.Some? && n.value !in c.tools)
            && (r == Rejected(EffectMismatch) ==> n.value in c.tools && effect.Some? && effect.value != c.tools[n.value].spec.effectClass)
            && (r == Rejected(ToolChanged) ==> n.value in c.tools && hash.Some? && hash.value != c.tools[n.value].spec.descriptorHash)
  {
  }
}
