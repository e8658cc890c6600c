/** The tool registry: manifests, the tools they own, and the catalog revision. */
module Registry {
  import opened Options
  import opened TextOrder

  datatype Spec = Spec(name: string, extensionId: string, description: string, effectClass: string, descriptorHash: string)

  /** A registered tool: its spec and the handler it runs. */
  datatype Tool = Tool(spec: Spec, handler: nat)

  datatype Manifest = Manifest(extensionId: string, capabilities: set<string>, toolNames: seq<string>)

  /** An element of the caller's tool list. */
  datatype Registration = Proper(tool: Tool) | Improper

  /** The flat field checks: name normalization, manifest fields, spec fields with schema compilation. */
  datatype Checks = Checks(normalize: string -> Option<string>, manifestOk: Manifest -> bool, specOk: Spec -> bool)

  datatype Error =
    | ManifestInvalid | IdInvalid | IdNotNormalized | ReservedNamespace
    | ToolTypeInvalid | SpecInvalid | ExtensionMismatch | LocalDuplicate | NamesMismatch
    | AlreadyRegistered | NotRegistered | CapacityExhausted | NameTaken
    | MaxToolsInvalid

  datatype Catalog = Catalog(maxTools: nat, manifests: map<string, Manifest>, tools: map<string, Tool>, revision: nat)

  const MAX_TOOLS := 4096
  const SKILL_READ_TOOL_NAME := "aegis.skills.read"
  const TOOL_SCHEMA_READ_TOOL_NAME := "aegis.tools.schema"
  const TOOL_SEARCH_TOOL_NAME := "aegis.tools.search"

  // -------------------------------------------------------------- the given tools

  /** Names of the tools in a list of proper registrations. */
  function LocalNames(regs: seq<Registration>): (r: set<string>) {
    if regs == [] then {}
    else LocalNames(regs[..|regs| - 1]) + if regs[|regs| - 1].Proper? then {regs[|regs| - 1].tool.spec.name} else {}
  }

  /** The first thing wrong with the list, in list order. */
  function CheckTools(regs: seq<Registration>, id: string, checks: Checks): (result: Option<Error>) {
    if regs == [] then None
    else
      var init, r := regs[..|regs| - 1], regs[|regs| - 1];
      var before := CheckTools(init, id, checks);
      if before.Some? then before
      else if r.Improper? then Some(ToolTypeInvalid)
      else if !checks.specOk(r.tool.spec) then Some(SpecInvalid)
      else if r.tool.spec.extensionId != id then Some(ExtensionMismatch)
      else if r.tool.spec.name in LocalNames(init) then Some(LocalDuplicate)
      else None
  }

  /** The map entries a list of registrations makes. */
  function NewTools(regs: seq<Registration>): (result: map<string, Tool>) {
    if regs == [] then map[]
    else
      var r := regs[|regs| - 1];
      if r.Proper? then NewTools(regs[..|regs| - 1])[r.tool.spec.name := r.tool] else NewTools(regs[..|regs| - 1])
  }

  predicate StrictlyAscending(names: seq<string>) {
    forall i, j :: 0 <= i < j < |names| ==> TextLess(names[i], names[j])
  }

  function Elements(names: seq<string>): (r: set<string>)
    ensures forall n :: n in r <==> n in names
  {
    set n | n in names
  }

  /** `tuple(sorted(names)) == listed`. */
  predicate ListsSorted(listed: seq<string>, names: set<string>) {
    StrictlyAscending(listed) && Elements(listed) == names
  }

  predicate Reserved(id: string) {
    "mcp." <= id
  }

  // ---------------------------------------------------------------- the operations

  function OldNames(c: Catalog, id: string): (r: set<string>) {
    if id in c.manifests then Elements(c.manifests[id].toolNames) else {}
  }

  /** Why `register` refuses, if it does. */
  function Refusal(c: Catalog, m: Manifest, regs: seq<Registration>, replaceExisting: bool, checks: Checks): (r: Option<Error>) {
    var id := checks.normalize(m.extensionId);
    if !checks.manifestOk(m) then Some(ManifestInvalid)
    else if id.None? then Some(IdInvalid)
    else if id.value != m.extensionId then Some(IdNotNormalized)
    else if Reserved(m.extensionId) && "mcp" !in m.capabilities then Some(ReservedNamespace)
    else if CheckTools(regs, m.extensionId, checks).Some? then CheckTools(regs, m.extensionId, checks)
    else if !ListsSorted(m.toolNames, LocalNames(regs)) then Some(NamesMismatch)
    else LockedRefusal(c, m, regs, LocalNames(regs), replaceExisting)
  }

  function LockedRefusal(c: Catalog, m: Manifest, regs: seq<Registration>, names: set<string>, replaceExisting: bool): (r: Option<Error>) {
    if m.extensionId in c.manifests && !replaceExisting then Some(AlreadyRegistered)
    else if m.extensionId !in c.manifests && replaceExisting then Some(NotRegistered)
    else if |c.tools| - |OldNames(c, m.extensionId)| + |regs| > c.maxTools then Some(CapacityExhausted)
    else if exists n :: n in names && n in c.tools && n !in OldNames(c, m.extensionId) then Some(NameTaken)
    else None
  }

  /** The catalog with `m` and its tools in place of what its extension had. */
  function Committed(c: Catalog, m: Manifest, regs: seq<Registration>): (r: Catalog) {
    c.(manifests := c.manifests[m.extensionId := m],
       tools := (c.tools - OldNames(c, m.extensionId)) + NewTools(regs),
       revision := c.revision + 1)
  }

  function Register(c: Catalog, m: Manifest, regs: seq<Registration>, replaceExisting: bool, checks: Checks): (r: Catalog) {
    if Refusal(c, m, regs, replaceExisting, checks).Some? then c else Committed(c, m, regs)
  }

  function Unregister(c: Catalog, extensionId: string, checks: Checks): (r: Catalog) {
    var id := checks.normalize(extensionId);
    if id.None? || id.value !in c.manifests then c
    else c.(manifests := c.manifests - {id.value}, tools := c.tools - OldNames(c, id.value), revision := c.revision + 1)
  }

  datatype LookupError = NameInvalid | HashInvalid | CatalogChanged | ToolNotFound | EffectMismatch | ToolChanged

  datatype Lookup = Found(tool: Tool) | Rejected(error: LookupError)

  /** The checks `invoke` makes before it runs a handler. */
  function Resolve(c: Catalog, name: string, effect: Option<string>, hash: Option<string>, revision: Option<int>, checks: Checks): (r: Lookup) {
    var n := checks.normalize(name);
    if n.None? then Rejected(NameInvalid)
    else if hash.Some? && |hash.value| != 64 then Rejected(HashInvalid)
    else if revision.Some? && revision.value != c.revision then Rejected(CatalogChanged)
    else if n.value !in c.tools then Rejected(ToolNotFound)
    else
      var tool := c.tools[n.value];
      if effect.Some? && tool.spec.effectClass != effect.value then Rejected(EffectMismatch)
      else if hash.Some? && tool.spec.descriptorHash != hash.value then Rejected(ToolChanged)
      else Found(tool)
  }

  // ----------------------------------------------------------------- construction

  /** An extension with a single tool, as the host's own are. */
  datatype Builtin = Builtin(id: string, name: string, handler: nat)

  const SKILL_READER := Builtin("core.skills", SKILL_READ_TOOL_NAME, 0)
  const SCHEMA_READER := Builtin("core.tool_schemas", TOOL_SCHEMA_READ_TOOL_NAME, 1)
  const TOOL_SEARCH := Builtin("core.tool_search", TOOL_SEARCH_TOOL_NAME, 2)

  function ManifestOf(b: Builtin): (m: Manifest) {
    Manifest(b.id, {"read_only"}, [b.name])
  }

  function ToolOf(b: Builtin): (tool: Tool) {
    Tool(Spec(b.name, b.id, "", "read_only", ""), b.handler)
  }

  function Enable(c: Catalog, enabled: bool, b: Builtin, checks: Checks): (r: Catalog) {
    if enabled then Register(c, ManifestOf(b), [Proper(ToolOf(b))], false, checks) else c
  }

  /** The registrations made during construction, each only while two places are free. */
  function Populate(maxTools: nat, skillCatalog: bool, skillReader: Builtin, schemaReader: Builtin, search: Builtin, checks: Checks): (r: Catalog) {
    var skills := Enable(Catalog(maxTools, map[], map[], 0), skillCatalog, skillReader, checks);
    var reader := maxTools - |skills.tools| >= 2;
    var schemas := Enable(skills, reader, schemaReader, checks);
    Enable(schemas, reader && maxTools - |schemas.tools| >= 2, search, checks)
  }

  /** The registry as constructed; the revision counts only later changes. */
  function Start(maxTools: nat, skillCatalog: bool, checks: Checks): (r: Catalog) {
    Populate(maxTools, skillCatalog, SKILL_READER, SCHEMA_READER, TOOL_SEARCH, checks).(revision := 0)
  }

  function EnableRefusal(c: Catalog, enabled: bool, b: Builtin, checks: Checks): (error: Option<Error>) {
    if enabled then Refusal(c, ManifestOf(b), [Proper(ToolOf(b))], false, checks) else None
  }

  /** The first error raised while `Populate` registers. */
  function PopulateRefusal(maxTools: nat, skillCatalog: bool, skillReader: Builtin, schemaReader: Builtin, search: Builtin, checks: Checks): (error: Option<Error>) {
    var empty := Catalog(maxTools, map[], map[], 0);
    var skills := Enable(empty, skillCatalog, skillReader, checks);
    var reader := maxTools - |skills.tools| >= 2;
    var schemas := Enable(skills, reader, schemaReader, checks);
    var searches := reader && maxTools - |schemas.tools| >= 2;
    if EnableRefusal(empty, skillCatalog, skillReader, checks).Some? then EnableRefusal(empty, skillCatalog, skillReader, checks)
    else if EnableRefusal(skills, reader, schemaReader, checks).Some? then EnableRefusal(skills, reader, schemaReader, checks)
    else EnableRefusal(schemas, searches, search, checks)
  }

  /** The first error raised during construction. */
  function StartRefusal(maxTools: int, skillCatalog: bool, checks: Checks): (error: Option<Error>) {
    if !(1 <= maxTools <= MAX_TOOLS) then Some(MaxToolsInvalid)
    else PopulateRefusal(maxTools, skillCatalog, SKILL_READER, SCHEMA_READER, TOOL_SEARCH, checks)
  }

  // ------------------------------------------------------------------ the invariant

  predicate OwnedBy(manifests: map<string, Manifest>, tool: Tool, n: string) {
    tool.spec.name == n && tool.spec.extensionId in manifests && n in manifests[tool.spec.extensionId].toolNames
  }

  /** Every tool is listed by the manifest of its extension, under its own name. */
  ghost predicate ToolsAreOwned(manifests: map<string, Manifest>, tools: map<string, Tool>) {
    forall n :: n in tools ==> OwnedBy(manifests, tools[n], n)
  }

  predicate Belongs(tools: map<string, Tool>, n: string, id: string) {
    n in tools && tools[n].spec.extensionId == id
  }

  /** Every listed name is a tool of the listing extension. */
  ghost predicate NamesAreTools(manifests: map<string, Manifest>, tools: map<string, Tool>) {
    forall id, n :: id in manifests && n in manifests[id].toolNames ==> Belongs(tools, n, id)
  }

  ghost predicate ManifestsAreKeyed(manifests: map<string, Manifest>) {
    forall id :: id in manifests ==> manifests[id].extensionId == id && StrictlyAscending(manifests[id].toolNames)
  }

  /** The tool map is the disjoint union of the manifests' tools, within capacity. */
  ghost predicate Consistent(c: Catalog) {
    && |c.tools| <= c.maxTools <= MAX_TOOLS
    && ManifestsAreKeyed(c.manifests)
    && ToolsAreOwned(c.manifests, c.tools)
    && NamesAreTools(c.manifests, c.tools)
  }

  /** Tools of different extensions have different names. */
  lemma OwnersAreDisjoint(c: Catalog, a: string, b: string)
    requires Consistent(c) && a in c.manifests && b in c.manifests && a != b
    ensures Elements(c.manifests[a].toolNames) !! Elements(c.manifests[b].toolNames)
  {
    forall n | n in c.manifests[a].toolNames ensures n !in c.manifests[b].toolNames {
      assert Belongs(c.tools, n, a);
      assert n in c.manifests[b].toolNames ==> Belongs(c.tools, n, b);
    }
  }

  lemma {:induction false} ToolsFromRegistrations(regs: seq<Registration>, id: string, checks: Checks)
    requires CheckTools(regs, id, checks).None?
    ensures NewTools(regs).Keys == LocalNames(regs) && |NewTools(regs)| == |regs|
    ensures forall n :: n in NewTools(regs) ==> NewTools(regs)[n].spec.name == n && NewTools(regs)[n].spec.extensionId == id
  {
    if regs != [] {
      var init, r := regs[..|regs| - 1], regs[|regs| - 1];
      ToolsFromRegistrations(init, id, checks);
      var before := NewTools(init);
      assert before[r.tool.spec.name := r.tool].Keys == before.Keys + {r.tool.spec.name};
      CountKeys(before);
      CountKeys(NewTools(regs));
    }
  }

  lemma CountKeys<K, V>(m: map<K, V>)
    ensures |m| == |m.Keys|
  {
  }

  lemma CountAfterReplacement(tools: map<string, Tool>, gone: set<string>, added: map<string, Tool>)
    requires gone <= tools.Keys && forall n :: n in added && n in tools ==> n in gone
    ensures |(tools - gone) + added| == |tools| - |gone| + |added|
  {
    var kept := tools - gone;
    assert kept.Keys == tools.Keys - gone && (kept + added).Keys == kept.Keys + added.Keys;
    assert kept.Keys !! added.Keys;
    CountKeys(tools);
    CountKeys(added);
    CountKeys(kept + added);
  }

  lemma CountAfterRemoval(tools: map<string, Tool>, gone: set<string>)
    requires gone <= tools.Keys
    ensures |tools - gone| == |tools| - |gone|
  {
    assert (tools - gone).Keys == tools.Keys - gone;
    CountKeys(tools);
    CountKeys(tools - gone);
  }

  lemma KeysStayRight(manifests: map<string, Manifest>, m: Manifest, gone: string)
    requires ManifestsAreKeyed(manifests)
    ensures StrictlyAscending(m.toolNames) ==> ManifestsAreKeyed(manifests[m.extensionId := m])
    ensures ManifestsAreKeyed(manifests - {gone})
  {
    hide StrictlyAscending;
  }

  /** Putting `m` with its tools in place of what its extension had keeps both indexes in step. */
  lemma ReplacementStaysInStep(c: Catalog, m: Manifest, added: map<string, Tool>)
    requires NamesAreTools(c.manifests, c.tools) && ToolsAreOwned(c.manifests, c.tools)
    requires Elements(m.toolNames) == added.Keys
    requires forall n :: n in added ==> added[n].spec.name == n && added[n].spec.extensionId == m.extensionId
    requires forall n :: n in added && n in c.tools ==> n in OldNames(c, m.extensionId)
    ensures var manifests, tools := c.manifests[m.extensionId := m], (c.tools - OldNames(c, m.extensionId)) + added;
            NamesAreTools(manifests, tools) && ToolsAreOwned(manifests, tools)
  {
    var manifests, tools := c.manifests[m.extensionId := m], (c.tools - OldNames(c, m.extensionId)) + added;
    forall n | n in tools ensures OwnedBy(manifests, tools[n], n) {
      if n !in added { assert OwnedBy(c.manifests, c.tools[n], n); }
    }
    forall id, n | id in manifests && n in manifests[id].toolNames ensures Belongs(tools, n, id) {
      if id != m.extensionId { assert Belongs(c.tools, n, id); }
    }
  }

  /** Removing an extension with its tools keeps both indexes in step. */
  lemma RemovalStaysInStep(c: Catalog, gone: string)
    requires NamesAreTools(c.manifests, c.tools) && ToolsAreOwned(c.manifests, c.tools)
    ensures var manifests, tools := c.manifests - {gone}, c.tools - OldNames(c, gone);
            NamesAreTools(manifests, tools) && ToolsAreOwned(manifests, tools)
  {
    var manifests, tools := c.manifests - {gone}, c.tools - OldNames(c, gone);
    forall n | n in tools ensures OwnedBy(manifests, tools[n], n) { assert OwnedBy(c.manifests, c.tools[n], n); }
    forall id, n | id in manifests && n in manifests[id].toolNames ensures Belongs(tools, n, id) {
      assert Belongs(c.tools, n, id);
    }
  }

  lemma OldNamesAreTools(c: Catalog, id: string)
    requires NamesAreTools(c.manifests, c.tools)
    ensures OldNames(c, id) <= c.tools.Keys
  {
    forall n | n in OldNames(c, id) ensures n in c.tools { assert Belongs(c.tools, n, id); }
  }

  lemma RegisterKeepsConsistent(c: Catalog, m: Manifest, regs: seq<Registration>, replaceExisting: bool, checks: Checks)
    requires Consistent(c)
    ensures Consistent(Register(c, m, regs, replaceExisting, checks))
  {
    hide NewTools, CheckTools, LocalNames, StrictlyAscending, Elements, OldNames, NamesAreTools, ToolsAreOwned, ManifestsAreKeyed;
    if Refusal(c, m, regs, replaceExisting, checks).None? {
      var gone := OldNames(c, m.extensionId);
      ToolsFromRegistrations(regs, m.extensionId, checks);
      OldNamesAreTools(c, m.extensionId);
      KeysStayRight(c.manifests, m, m.extensionId);
      CountAfterReplacement(c.tools, gone, NewTools(regs));
      ReplacementStaysInStep(c, m, NewTools(regs));
    }
  }

  lemma UnregisterKeepsConsistent(c: Catalog, extensionId: string, checks: Checks)
    requires Consistent(c)
    ensures Consistent(Unregister(c, extensionId, checks))
  {
    var id := checks.normalize(extensionId);
    if id.Some? && id.value in c.manifests {
      OldNamesAreTools(c, id.value);
      hide OldNames, NamesAreTools, ToolsAreOwned, ManifestsAreKeyed;
      RemovalStaysInStep(c, id.value);
      KeysStayRight(c.manifests, c.manifests[id.value], id.value);
      CountAfterRemoval(c.tools, OldNames(c, id.value));
    }
  }

  lemma EmptyIsConsistent(maxTools: nat)
    requires 1 <= maxTools <= MAX_TOOLS
    ensures Consistent(Catalog(maxTools, map[], map[], 0))
  {
  }

  lemma EnableKeepsConsistent(c: Catalog, enabled: bool, b: Builtin, checks: Checks)
    requires Consistent(c)
    ensures Consistent(Enable(c, enabled, b, checks))
  {
    hide Consistent;
    RegisterKeepsConsistent(c, ManifestOf(b), [Proper(ToolOf(b))], false, checks);
  }

  /** The constructed registry is consistent, whichever built-in tools find room. */
  lemma StartIsConsistent(maxTools: nat, skillCatalog: bool, checks: Checks)
    requires 1 <= maxTools <= MAX_TOOLS
    ensures Consistent(Start(maxTools, skillCatalog, checks)) && Start(maxTools, skillCatalog, checks).revision == 0
  {
    EmptyIsConsistent(maxTools);
    var skills := Enable(Catalog(maxTools, map[], map[], 0), skillCatalog, SKILL_READER, checks);
    var reader := maxTools - |skills.tools| >= 2;
    var schemas := Enable(skills, reader, SCHEMA_READER, checks);
    var search := reader && maxTools - |schemas.tools| >= 2;
    EnableKeepsConsistent(Catalog(maxTools, map[], map[], 0), skillCatalog, SKILL_READER, checks);
    EnableKeepsConsistent(skills, reader, SCHEMA_READER, checks);
    EnableKeepsConsistent(schemas, search, TOOL_SEARCH, checks);
    hide Enable;
    RevisionIsFree(Enable(schemas, search, TOOL_SEARCH, checks));
  }

  lemma RevisionIsFree(c: Catalog)
    requires Consistent(c)
    ensures Consistent(c.(revision := 0))
  {
  }

  // ------------------------------------------------------- which built-in tools find room

  /** The flat checks accept a built-in extension. */
  predicate AcceptsBuiltin(checks: Checks, b: Builtin) {
    checks.manifestOk(ManifestOf(b)) && checks.normalize(b.id) == Some(b.id) && checks.specOk(ToolOf(b).spec) && !Reserved(b.id)
  }

  predicate Differ(a: Builtin, b: Builtin) {
    a.id != b.id && a.name != b.name
  }

  lemma BuiltinsDiffer()
    ensures Differ(SKILL_READER, SCHEMA_READER) && Differ(SKILL_READER, TOOL_SEARCH) && Differ(SCHEMA_READER, TOOL_SEARCH)
  {
    assert TOOL_SCHEMA_READ_TOOL_NAME[13] != TOOL_SEARCH_TOOL_NAME[13];
  }

  lemma OneToolList(b: Builtin, checks: Checks)
    requires AcceptsBuiltin(checks, b)
    ensures var regs := [Proper(ToolOf(b))];
            && LocalNames(regs) == {b.name} && CheckTools(regs, b.id, checks).None?
            && NewTools(regs) == map[b.name := ToolOf(b)] && ListsSorted([b.name], {b.name})
  {
    var regs := [Proper(ToolOf(b))];
    assert regs[..0] == [];
    assert CheckTools([], b.id, checks).None?;
    assert Elements([b.name]) == {b.name};
  }

  /** An accepted built-in extension with a new id, a new tool name and room is registered. */
  lemma BuiltinIsRegistered(c: Catalog, b: Builtin, checks: Checks)
    requires AcceptsBuiltin(checks, b) && b.id !in c.manifests && b.name !in c.tools && |c.tools| < c.maxTools
    ensures var d := Enable(c, true, b, checks);
            && d.maxTools == c.maxTools
            && d.manifests == c.manifests[b.id := ManifestOf(b)]
            && d.tools == c.tools[b.name := ToolOf(b)] && |d.tools| == |c.tools| + 1
  {
    hide LocalNames, CheckTools, NewTools, ListsSorted, Reserved;
    OneToolList(b, checks);
    assert OldNames(c, b.id) == {};
    SingleToolMap(c.tools, b.name, ToolOf(b));
  }

  lemma SingleToolMap(tools: map<string, Tool>, name: string, tool: Tool)
    requires name !in tools
    ensures (tools - {}) + map[name := tool] == tools[name := tool]
    ensures |tools[name := tool]| == |tools| + 1
  {
    assert tools[name := tool].Keys == tools.Keys + {name};
    CountKeys(tools);
    CountKeys(tools[name := tool]);
  }

  /** Which of three different accepted built-in tools a registry of a given capacity starts with. */
  lemma PopulateFills(maxTools: nat, skillCatalog: bool, a: Builtin, b: Builtin, s: Builtin, checks: Checks)
    requires 1 <= maxTools && Differ(a, b) && Differ(a, s) && Differ(b, s)
    requires AcceptsBuiltin(checks, a) && AcceptsBuiltin(checks, b) && AcceptsBuiltin(checks, s)
    ensures var taken := if skillCatalog then 1 else 0;
            forall n :: n in Populate(maxTools, skillCatalog, a, b, s, checks).tools
              <==> || (skillCatalog && n == a.name)
                   || (maxTools - taken >= 2 && n == b.name)
                   || (maxTools - taken >= 3 && n == s.name)
  {
    hide AcceptsBuiltin, Enable;
    var empty := Catalog(maxTools, map[], map[], 0);
    EnableAdds(empty, skillCatalog, a, checks);
    var skills := Enable(empty, skillCatalog, a, checks);
    var reader := maxTools - |skills.tools| >= 2;
    EnableAdds(skills, reader, b, checks);
    var schemas := Enable(skills, reader, b, checks);
    EnableAdds(schemas, reader && maxTools - |schemas.tools| >= 2, s, checks);
  }

  lemma EnableAdds(c: Catalog, enabled: bool, b: Builtin, checks: Checks)
    requires AcceptsBuiltin(checks, b) && b.id !in c.manifests && b.name !in c.tools
    requires enabled ==> |c.tools| < c.maxTools
    ensures var d := Enable(c, enabled, b, checks);
            && d.maxTools == c.maxTools
            && (forall id :: id in d.manifests <==> id in c.manifests || (enabled && id == b.id))
            && (forall n :: n in d.tools <==> n in c.tools || (enabled && n == b.name))
            && |d.tools| == |c.tools| + (if enabled then 1 else 0)
            && EnableRefusal(c, enabled, b, checks).None?
  {
    hide AcceptsBuiltin, Register, Refusal, ManifestOf, ToolOf;
    if enabled {
      BuiltinIsRegistered(c, b, checks);
      UnchangedIfRefused(c, ManifestOf(b), [Proper(ToolOf(b))], checks);
    }
  }

  lemma UnchangedIfRefused(c: Catalog, m: Manifest, regs: seq<Registration>, checks: Checks)
    ensures Refusal(c, m, regs, false, checks).Some? ==> Register(c, m, regs, false, checks) == c
  {
    hide Refusal;
  }

  /** Accepted built-in extensions always find room when they are tried, so construction does not fail. */
  lemma StartSucceeds(maxTools: nat, skillCatalog: bool, checks: Checks)
    requires AcceptsBuiltin(checks, SKILL_READER) && AcceptsBuiltin(checks, SCHEMA_READER) && AcceptsBuiltin(checks, TOOL_SEARCH)
    ensures StartRefusal(maxTools, skillCatalog, checks) == if 1 <= maxTools <= MAX_TOOLS then None else Some(MaxToolsInvalid)
  {
    hide AcceptsBuiltin, Enable, EnableRefusal;
    if 1 <= maxTools <= MAX_TOOLS {
      BuiltinsDiffer();
      var empty := Catalog(maxTools, map[], map[], 0);
      EnableAdds(empty, skillCatalog, SKILL_READER, checks);
      var skills := Enable(empty, skillCatalog, SKILL_READER, checks);
      var reader := maxTools - |skills.tools| >= 2;
      EnableAdds(skills, reader, SCHEMA_READER, checks);
      var schemas := Enable(skills, reader, SCHEMA_READER, checks);
      EnableAdds(schemas, reader && maxTools - |schemas.tools| >= 2, TOOL_SEARCH, checks);
    }
  }

  /** The skill reader needs a skill catalog; schema lookup needs one free place besides its own, and
  search another. */
  lemma StartFills(maxTools: nat, skillCatalog: bool, checks: Checks)
    requires 1 <= maxTools
    requires AcceptsBuiltin(checks, SKILL_READER) && AcceptsBuiltin(checks, SCHEMA_READER) && AcceptsBuiltin(checks, TOOL_SEARCH)
    ensures var taken := if skillCatalog then 1 else 0;
            forall n :: n in Start(maxTools, skillCatalog, checks).tools
              <==> || (skillCatalog && n == SKILL_READ_TOOL_NAME)
                   || (maxTools - taken >= 2 && n == TOOL_SCHEMA_READ_TOOL_NAME)
                   || (maxTools - taken >= 3 && n == TOOL_SEARCH_TOOL_NAME)
  {
    hide AcceptsBuiltin, Populate, Differ;
    BuiltinsDiffer();
    PopulateFills(maxTools, skillCatalog, SKILL_READER, SCHEMA_READER, TOOL_SEARCH, checks);
  }
}
