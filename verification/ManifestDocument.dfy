/** A manifest document as JSON: the record a digest is computed from, the document that declares
    it, and the reading of a document, which takes exactly the values written from manifests. */
module ManifestDocuments {
  import opened Options
  import opened JsStrings
  import opened KeyedLists
  import opened Json
  import opened ManifestJson
  import opened ManifestRecords
  import C = JsonCanonical
  import S = ManifestSchemas
  import M = Manifests

  // ----- the sections

  const SECTION_KEYS := [
    Js("roles"), Js("taskTypes"), Js("workflows"), Js("agents"), Js("artifactTypes"), Js("evidenceTypes"), Js("policies"),
    KNOWLEDGE, CAPABILITIES, PROMPTS, Js("validators")]

  const NOTHING: Json := Arr([])

  function SectionValues(m: M.Manifest): (v: Values)
    ensures |v| == |SECTION_KEYS|
  {
    [Some(Listed(RoleJson, m.roles)), Some(Listed(PlainJson, m.taskTypes)), Some(Listed(WorkflowJson, m.workflows)),
     Some(Listed(AgentJson, m.agents)), Some(Listed(ArtifactJson, m.artifactTypes)), Some(Listed(EvidenceJson, m.evidenceTypes)),
     Some(Listed(PolicyJson, m.policies)), Some(Listed(PlainJson, m.knowledge)), Some(Listed(CapabilityJson, m.capabilities)),
     Some(Listed(PlainJson, m.prompts)), Some(NOTHING)]
  }

  function SectionsJson(m: M.Manifest): Json { Record(SECTION_KEYS, SectionValues(m)) }

  lemma SectionKeysAreDistinct()
    ensures S.Distinct(SECTION_KEYS)
  {
    assert Js("taskTypes")[0] == 't' as int && Js("workflows")[0] == 'w' as int && KNOWLEDGE[0] == 'k' as int;
    assert Js("artifactTypes")[0] == 'a' as int && Js("evidenceTypes")[0] == 'e' as int;
  }

  /** Every section is required. Validators are not modelled: their section must be empty. */
  function ReadSections(v: Json, header: M.Header, dependencies: seq<M.Dependency>): (r: Option<M.Manifest>)
    ensures r.Some? ==> r.value.header == header && r.value.dependencies == dependencies && Fields(v, SECTION_KEYS).Some?
  {
    var f :- Fields(v, SECTION_KEYS);
    var roles, taskTypes, workflows := ListOf(ReadRole, f[0]), ListOf(ReadPlain, f[1]), ListOf(ReadWorkflow, f[2]);
    var agents, artifactTypes := ListOf(ReadAgent, f[3]), ListOf(ReadArtifact, f[4]);
    var evidenceTypes, policies := ListOf(ReadEvidence, f[5]), ListOf(ReadPolicy, f[6]);
    var knowledge, capabilities, prompts := ListOf(ReadPlain, f[7]), ListOf(ReadCapability, f[8]), ListOf(ReadPlain, f[9]);
    if roles.None? || taskTypes.None? || workflows.None? || agents.None? || artifactTypes.None? || evidenceTypes.None?
       || policies.None? || knowledge.None? || capabilities.None? || prompts.None? || f[10] != Some(NOTHING) then None
    else
      Some(M.Manifest(header, dependencies, roles.value, taskTypes.value, workflows.value, agents.value, artifactTypes.value,
                      evidenceTypes.value, policies.value, knowledge.value, capabilities.value, prompts.value))
  }

  /** The same manifest, entry by entry, but for the written order inside data schemas. */
  ghost predicate Rewritten(a: M.Manifest, b: M.Manifest) {
    && b == a.(artifactTypes := b.artifactTypes, evidenceTypes := b.evidenceTypes)
    && Pairwise(M.SameArtifact, a.artifactTypes, b.artifactTypes) && Pairwise(M.SameEvidence, a.evidenceTypes, b.evidenceTypes)
  }

  lemma PlainsRead(m: M.Manifest, f: Values)
    requires |f| == |SECTION_KEYS| && AlikeSections(m, f)
    ensures ListOf(ReadPlain, f[1]) == Some(m.taskTypes)
    ensures ListOf(ReadPlain, f[7]) == Some(m.knowledge) && ListOf(ReadPlain, f[9]) == Some(m.prompts)
  {
    hide Alike, AlikeOption, Listed, PlainJson, ReadPlain, ListOf;
    var v := SectionValues(m);
    assert AlikeOption(v[1], f[1]) && AlikeOption(v[7], f[7]) && AlikeOption(v[9], f[9]);
    forall x, u | Alike(PlainJson(x), u) { PlainReads(x, u); }
    ListReads(PlainJson, ReadPlain, m.taskTypes, f[1]);
    ListReads(PlainJson, ReadPlain, m.knowledge, f[7]);
    ListReads(PlainJson, ReadPlain, m.prompts, f[9]);
  }

  ghost predicate AlikeSections(m: M.Manifest, f: Values)
    requires |f| == |SECTION_KEYS|
  {
    forall i :: 0 <= i < |SECTION_KEYS| ==> AlikeOption(SectionValues(m)[i], f[i])
  }

  lemma PeopleRead(m: M.Manifest, f: Values)
    requires |f| == |SECTION_KEYS| && AlikeSections(m, f)
    ensures ListOf(ReadRole, f[0]) == Some(m.roles) && ListOf(ReadWorkflow, f[2]) == Some(m.workflows)
    ensures ListOf(ReadAgent, f[3]) == Some(m.agents)
  {
    hide Alike, AlikeOption, Listed, RoleJson, WorkflowJson, AgentJson, ReadRole, ReadWorkflow, ReadAgent, ListOf;
    var v := SectionValues(m);
    assert AlikeOption(v[0], f[0]) && AlikeOption(v[2], f[2]) && AlikeOption(v[3], f[3]);
    forall x, u | Alike(RoleJson(x), u) { RoleReads(x, u); }
    ListReads(RoleJson, ReadRole, m.roles, f[0]);
    forall x, u | Alike(WorkflowJson(x), u) { WorkflowReads(x, u); }
    ListReads(WorkflowJson, ReadWorkflow, m.workflows, f[2]);
    forall x, u | Alike(AgentJson(x), u) { AgentReads(x, u); }
    ListReads(AgentJson, ReadAgent, m.agents, f[3]);
  }

  lemma RulesRead(m: M.Manifest, f: Values)
    requires |f| == |SECTION_KEYS| && AlikeSections(m, f)
    ensures ListOf(ReadPolicy, f[6]) == Some(m.policies) && ListOf(ReadCapability, f[8]) == Some(m.capabilities)
    ensures f[10] == Some(NOTHING)
  {
    hide Alike, AlikeOption, Listed, PolicyJson, CapabilityJson, ReadPolicy, ReadCapability, ListOf;
    var v := SectionValues(m);
    assert AlikeOption(v[6], f[6]) && AlikeOption(v[8], f[8]) && AlikeOption(v[10], f[10]);
    forall x, u | Alike(PolicyJson(x), u) { PolicyReads(x, u); }
    ListReads(PolicyJson, ReadPolicy, m.policies, f[6]);
    forall x, u | Alike(CapabilityJson(x), u) { CapabilityReads(x, u); }
    ListReads(CapabilityJson, ReadCapability, m.capabilities, f[8]);
    NothingReads(f[10]);
  }

  lemma NothingReads(w: Option<Json>)
    requires AlikeOption(Some(NOTHING), w)
    ensures w == Some(NOTHING)
  {
  }

  lemma TypesRead(m: M.Manifest, f: Values)
    requires |f| == |SECTION_KEYS| && AlikeSections(m, f)
    ensures ListOf(ReadArtifact, f[4]).Some? && Pairwise(M.SameArtifact, m.artifactTypes, ListOf(ReadArtifact, f[4]).value)
    ensures ListOf(ReadEvidence, f[5]).Some? && Pairwise(M.SameEvidence, m.evidenceTypes, ListOf(ReadEvidence, f[5]).value)
  {
    hide Alike, AlikeOption, Listed, ArtifactJson, EvidenceJson, ReadArtifact, ReadEvidence, ListOf, M.SameArtifact, M.SameEvidence;
    var v := SectionValues(m);
    assert AlikeOption(v[4], f[4]) && AlikeOption(v[5], f[5]);
    forall x, u | Alike(ArtifactJson(x), u) { ArtifactReads(x, u); }
    ListReadsLike(ArtifactJson, ReadArtifact, M.SameArtifact, m.artifactTypes, f[4]);
    forall x, u | Alike(EvidenceJson(x), u) { EvidenceReads(x, u); }
    ListReadsLike(EvidenceJson, ReadEvidence, M.SameEvidence, m.evidenceTypes, f[5]);
  }

  lemma SectionsRead(m: M.Manifest, w: Json)
    requires Alike(SectionsJson(m), w)
    ensures exists r :: ReadSections(w, m.header, m.dependencies) == Some(r) && Rewritten(m, r)
  {
    hide Alike, AlikeOption, Record, Fields, ListOf, M.SameArtifact, M.SameEvidence;
    SectionKeysAreDistinct();
    RecordReads(SECTION_KEYS, SectionValues(m), w);
    var f := Fields(w, SECTION_KEYS).value;
    PlainsRead(m, f);
    PeopleRead(m, f);
    RulesRead(m, f);
    TypesRead(m, f);
    var r := ReadSections(w, m.header, m.dependencies);
    assert r.Some? && Rewritten(m, r.value);
  }

  // ----- the document

  const SCHEMA_VERSION: int := 1

  const TOP_KEYS := [
    Js("schemaVersion"), ID, VERSION, Js("coreContract"), Js("metadata"), Js("dependencies"), Js("contributions")]

  function TopValues(m: M.Manifest): (v: Values)
    ensures |v| == |TOP_KEYS|
  {
    [Some(Num(SCHEMA_VERSION)), Some(Str(m.header.id)), Some(Str(m.header.version)), Some(CoreJson(m.header)),
     Some(MetadataJson(m.header)), Some(Listed(DependencyJson, m.dependencies)), Some(SectionsJson(m))]
  }

  /** The record the digest is computed from: everything but the digest. */
  function ManifestValue(m: M.Manifest): Json { Record(TOP_KEYS, TopValues(m)) }

  const DOCUMENT_KEYS := TOP_KEYS + [DIGEST]

  function DocumentValues(m: M.Manifest, digest: JsString): Values { TopValues(m) + [Some(Str(digest))] }

  function DocumentValue(m: M.Manifest, digest: JsString): Json { Record(DOCUMENT_KEYS, DocumentValues(m, digest)) }

  lemma DocumentKeysAreDistinct()
    ensures S.Distinct(DOCUMENT_KEYS) && S.Distinct(TOP_KEYS) && DIGEST !in TOP_KEYS
  {
    assert Js("schemaVersion")[0] == 's' as int && Js("contributions")[0] == 'c' as int;
    assert Js("coreContract")[0] == 'c' as int && Js("dependencies")[0] == 'd' as int && DIGEST[0] == 'm' as int;
  }

  datatype Document = Document(manifest: M.Manifest, digest: JsString)

  /** Every field is required and no other is taken. */
  function ReadDocument(v: Json): Option<Document> {
    var f :- Fields(v, DOCUMENT_KEYS);
    if f[0] != Some(Num(SCHEMA_VERSION)) || f[6].None? then None else
    var id :- StringOf(f[1]);
    var version :- StringOf(f[2]);
    var core :- CoreOf(f[3]);
    var metadata :- MetadataOf(f[4]);
    var dependencies :- ListOf(ReadDependency, f[5]);
    var digest :- StringOf(f[7]);
    var manifest :- ReadSections(f[6].value, M.Header(id, version, core.0, core.1, metadata.0, metadata.1), dependencies);
    Some(Document(manifest, digest))
  }

  lemma HeaderReads(m: M.Manifest, f: Values)
    requires |f| >= |TOP_KEYS| && forall i :: 0 <= i < |TOP_KEYS| ==> AlikeOption(TopValues(m)[i], f[i])
    ensures f[0] == Some(Num(SCHEMA_VERSION)) && StringOf(f[1]) == Some(m.header.id) && StringOf(f[2]) == Some(m.header.version)
    ensures CoreOf(f[3]) == Some((m.header.minInclusive, m.header.maxExclusive))
    ensures MetadataOf(f[4]) == Some((m.header.name, m.header.description))
    ensures ListOf(ReadDependency, f[5]) == Some(m.dependencies)
    ensures f[6].Some? && Alike(SectionsJson(m), f[6].value)
  {
    hide Alike, AlikeOption, Listed, CoreJson, MetadataJson, DependencyJson, SectionsJson, StringOf, CoreOf, MetadataOf, ReadDependency, ListOf;
    var v := TopValues(m);
    assert AlikeOption(v[0], f[0]) && AlikeOption(v[1], f[1]) && AlikeOption(v[2], f[2]) && AlikeOption(v[3], f[3]);
    assert AlikeOption(v[4], f[4]) && AlikeOption(v[5], f[5]) && AlikeOption(v[6], f[6]);
    VersionReads(f[0]);
    StringReads(m.header.id, f[1]);
    StringReads(m.header.version, f[2]);
    CoreReads(m.header, f[3]);
    MetadataReads(m.header, f[4]);
    forall x, u | Alike(DependencyJson(x), u) { DependencyReads(x, u); }
    ListReads(DependencyJson, ReadDependency, m.dependencies, f[5]);
    ValueIsThere(SectionsJson(m), f[6]);
  }

  lemma VersionReads(w: Option<Json>)
    requires AlikeOption(Some(Num(SCHEMA_VERSION)), w)
    ensures w == Some(Num(SCHEMA_VERSION))
  {
  }

  /** Any value like a manifest's document is read as that manifest with that digest. */
  lemma DocumentReads(m: M.Manifest, digest: JsString, w: Json)
    requires Alike(DocumentValue(m, digest), w)
    ensures exists r :: ReadDocument(w) == Some(Document(r, digest)) && Rewritten(m, r)
  {
    hide Alike, AlikeOption, Record, Fields, SectionsJson, StringOf, CoreOf, MetadataOf, ListOf, ReadSections, Rewritten;
    DocumentKeysAreDistinct();
    RecordReads(DOCUMENT_KEYS, DocumentValues(m, digest), w);
    var v, f := DocumentValues(m, digest), Fields(w, DOCUMENT_KEYS).value;
    assert forall i :: 0 <= i < |TOP_KEYS| ==> v[i] == TopValues(m)[i];
    HeaderReads(m, f);
    assert AlikeOption(v[7], f[7]);
    StringReads(digest, f[7]);
    SectionsRead(m, f[6].value);
  }

  // ----- what is read as a document could have been written as it

  ghost predicate SectionsAre(m: M.Manifest, f: Values)
    requires |f| == |SECTION_KEYS|
  {
    && ListOf(ReadRole, f[0]) == Some(m.roles) && ListOf(ReadPlain, f[1]) == Some(m.taskTypes)
    && ListOf(ReadWorkflow, f[2]) == Some(m.workflows) && ListOf(ReadAgent, f[3]) == Some(m.agents)
    && ListOf(ReadArtifact, f[4]) == Some(m.artifactTypes) && ListOf(ReadEvidence, f[5]) == Some(m.evidenceTypes)
    && ListOf(ReadPolicy, f[6]) == Some(m.policies) && ListOf(ReadPlain, f[7]) == Some(m.knowledge)
    && ListOf(ReadCapability, f[8]) == Some(m.capabilities) && ListOf(ReadPlain, f[9]) == Some(m.prompts)
    && f[10] == Some(NOTHING)
  }

  ghost predicate AllPrintable(f: Values) { forall i :: 0 <= i < |f| ==> PrintableOption(f[i]) }

  lemma PlainsWritten(m: M.Manifest, f: Values)
    requires |f| == |SECTION_KEYS| && AllPrintable(f) && SectionsAre(m, f)
    ensures AlikeOption(Some(Listed(PlainJson, m.taskTypes)), f[1])
    ensures AlikeOption(Some(Listed(PlainJson, m.knowledge)), f[7]) && AlikeOption(Some(Listed(PlainJson, m.prompts)), f[9])
  {
    hide Alike, AlikeOption, Printable, PrintableOption, Listed, PlainJson, ReadPlain, ReadAll;
    forall u, x | Printable(u) && ReadPlain(u) == Some(x) { PlainWritten(u, x); }
    RequiredListWritten(PlainJson, ReadPlain, f[1], m.taskTypes);
    RequiredListWritten(PlainJson, ReadPlain, f[7], m.knowledge);
    RequiredListWritten(PlainJson, ReadPlain, f[9], m.prompts);
  }

  lemma PeopleWritten(m: M.Manifest, f: Values)
    requires |f| == |SECTION_KEYS| && AllPrintable(f) && SectionsAre(m, f)
    ensures AlikeOption(Some(Listed(RoleJson, m.roles)), f[0]) && AlikeOption(Some(Listed(WorkflowJson, m.workflows)), f[2])
    ensures AlikeOption(Some(Listed(AgentJson, m.agents)), f[3])
  {
    hide Alike, AlikeOption, Printable, PrintableOption, Listed, RoleJson, WorkflowJson, AgentJson, ReadRole, ReadWorkflow, ReadAgent, ReadAll;
    forall u, x | Printable(u) && ReadRole(u) == Some(x) { RoleWritten(u, x); }
    RequiredListWritten(RoleJson, ReadRole, f[0], m.roles);
    forall u, x | Printable(u) && ReadWorkflow(u) == Some(x) { WorkflowWritten(u, x); }
    RequiredListWritten(WorkflowJson, ReadWorkflow, f[2], m.workflows);
    forall u, x | Printable(u) && ReadAgent(u) == Some(x) { AgentWritten(u, x); }
    RequiredListWritten(AgentJson, ReadAgent, f[3], m.agents);
  }

  lemma RulesWritten(m: M.Manifest, f: Values)
    requires |f| == |SECTION_KEYS| && AllPrintable(f) && SectionsAre(m, f)
    ensures AlikeOption(Some(Listed(PolicyJson, m.policies)), f[6]) && AlikeOption(Some(Listed(CapabilityJson, m.capabilities)), f[8])
  {
    hide Alike, AlikeOption, Printable, PrintableOption, Listed, PolicyJson, CapabilityJson, ReadPolicy, ReadCapability, ReadAll;
    forall u, x | Printable(u) && ReadPolicy(u) == Some(x) { PolicyWritten(u, x); }
    RequiredListWritten(PolicyJson, ReadPolicy, f[6], m.policies);
    forall u, x | Printable(u) && ReadCapability(u) == Some(x) { CapabilityWritten(u, x); }
    RequiredListWritten(CapabilityJson, ReadCapability, f[8], m.capabilities);
  }

  lemma TypesWritten(m: M.Manifest, f: Values)
    requires |f| == |SECTION_KEYS| && AllPrintable(f) && SectionsAre(m, f)
    ensures AlikeOption(Some(Listed(ArtifactJson, m.artifactTypes)), f[4]) && AlikeOption(Some(Listed(EvidenceJson, m.evidenceTypes)), f[5])
  {
    hide Alike, AlikeOption, Printable, PrintableOption, Listed, ArtifactJson, EvidenceJson, ReadArtifact, ReadEvidence, ReadAll;
    forall u, x | Printable(u) && ReadArtifact(u) == Some(x) { ArtifactWritten(u, x); }
    RequiredListWritten(ArtifactJson, ReadArtifact, f[4], m.artifactTypes);
    forall u, x | Printable(u) && ReadEvidence(u) == Some(x) { EvidenceWritten(u, x); }
    RequiredListWritten(EvidenceJson, ReadEvidence, f[5], m.evidenceTypes);
  }

  lemma SectionsWereRead(v: Json, f: Values, m: M.Manifest)
    requires ReadSections(v, m.header, m.dependencies) == Some(m) && Fields(v, SECTION_KEYS) == Some(f)
    ensures SectionsAre(m, f)
  {
    hide Fields, ListOf, ReadRole, ReadPlain, ReadWorkflow, ReadAgent, ReadArtifact, ReadEvidence, ReadPolicy, ReadCapability;
  }

  lemma SectionsAreAlike(m: M.Manifest, f: Values)
    requires |f| == |SECTION_KEYS| && AllPrintable(f) && SectionsAre(m, f)
    ensures AlikeSections(m, f)
  {
    hide AlikeOption, PrintableOption, Listed, ListOf, RoleJson, PlainJson, WorkflowJson;
    hide AgentJson, ArtifactJson, EvidenceJson, PolicyJson, CapabilityJson;
    PlainsWritten(m, f);
    PeopleWritten(m, f);
    RulesWritten(m, f);
    TypesWritten(m, f);
    NothingWritten();
  }

  lemma SectionsWritten(v: Json, m: M.Manifest)
    requires ReadSections(v, m.header, m.dependencies) == Some(m) && Printable(v)
    ensures Alike(SectionsJson(m), v)
  {
    hide Alike, AlikeOption, Record, Fields, Printable, PrintableOption, ListOf, ReadSections, SectionValues;
    SectionKeysAreDistinct();
    FieldsPrint(v, SECTION_KEYS);
    var f := Fields(v, SECTION_KEYS).value;
    SectionsWereRead(v, f, m);
    SectionsAreAlike(m, f);
    RecordWritten(SECTION_KEYS, SectionValues(m), v);
  }

  lemma NothingWritten()
    ensures AlikeOption(Some(NOTHING), Some(NOTHING))
  {
  }

  lemma HeaderWritten(m: M.Manifest, f: Values)
    requires |f| == |DOCUMENT_KEYS| && AllPrintable(f)
    requires f[0] == Some(Num(SCHEMA_VERSION)) && StringOf(f[1]) == Some(m.header.id) && StringOf(f[2]) == Some(m.header.version)
    requires CoreOf(f[3]) == Some((m.header.minInclusive, m.header.maxExclusive))
    requires MetadataOf(f[4]) == Some((m.header.name, m.header.description)) && ListOf(ReadDependency, f[5]) == Some(m.dependencies)
    ensures forall i :: 0 <= i < 6 ==> AlikeOption(TopValues(m)[i], f[i])
  {
    hide Alike, Printable, Listed, CoreJson, MetadataJson, DependencyJson, SectionsJson, StringOf, CoreOf, MetadataOf, ReadDependency, ReadAll;
    VersionWritten();
    StringWritten(f[1], m.header.id);
    StringWritten(f[2], m.header.version);
    CoreWritten(f[3], m.header);
    MetadataWritten(f[4], m.header);
    forall u, x | Printable(u) && ReadDependency(u) == Some(x) { DependencyWritten(u, x); }
    RequiredListWritten(DependencyJson, ReadDependency, f[5], m.dependencies);
  }

  lemma VersionWritten()
    ensures AlikeOption(Some(Num(SCHEMA_VERSION)), Some(Num(SCHEMA_VERSION)))
  {
  }

  lemma DocumentWasRead(v: Json, d: Document)
    requires ReadDocument(v) == Some(d)
    ensures Fields(v, DOCUMENT_KEYS).Some?
    ensures var f, m := Fields(v, DOCUMENT_KEYS).value, d.manifest;
            && f[0] == Some(Num(SCHEMA_VERSION)) && StringOf(f[1]) == Some(m.header.id) && StringOf(f[2]) == Some(m.header.version)
            && CoreOf(f[3]) == Some((m.header.minInclusive, m.header.maxExclusive))
            && MetadataOf(f[4]) == Some((m.header.name, m.header.description)) && ListOf(ReadDependency, f[5]) == Some(m.dependencies)
            && f[6].Some? && ReadSections(f[6].value, m.header, m.dependencies) == Some(m) && StringOf(f[7]) == Some(d.digest)
  {
    hide Fields, CoreOf, MetadataOf, StringOf, ListOf, ReadSections, ReadDependency;
  }

  /** Only a value like a manifest's document is read as one. */
  lemma DocumentWritten(v: Json, d: Document)
    requires ReadDocument(v) == Some(d) && Printable(v)
    ensures Alike(DocumentValue(d.manifest, d.digest), v)
  {
    hide Alike, AlikeOption, Record, Fields, Printable, PrintableOption, SectionsJson, StringOf, CoreOf, MetadataOf, ListOf;
    hide ReadDocument, ReadSections, CoreJson, MetadataJson, DependencyJson, Listed;
    DocumentKeysAreDistinct();
    DocumentWasRead(v, d);
    FieldsPrint(v, DOCUMENT_KEYS);
    var f, m := Fields(v, DOCUMENT_KEYS).value, d.manifest;
    assert PrintableOption(f[6]) && PrintableOption(f[7]);
    HeaderWritten(m, f);
    IsPrintable(f[6]);
    SectionsWritten(f[6].value, m);
    IsThere(SectionsJson(m), f[6]);
    StringWritten(f[7], d.digest);
    var values := DocumentValues(m, d.digest);
    forall i | 0 <= i < |DOCUMENT_KEYS|
      ensures AlikeOption(values[i], f[i])
    {
      if i < 6 { assert values[i] == TopValues(m)[i]; }
    }
    RecordWritten(DOCUMENT_KEYS, values, v);
  }

  lemma IsPrintable(w: Option<Json>)
    requires PrintableOption(w) && w.Some?
    ensures Printable(w.value)
  {
  }

  lemma IsThere(v: Json, w: Option<Json>)
    requires w.Some? && Alike(v, w.value)
    ensures AlikeOption(Some(v), w)
  {
  }

  // ----- written order does not matter

  lemma SectionsNormal(a: M.Manifest, b: M.Manifest, d: M.Declared)
    requires M.EntriesOk(a, d) && Rewritten(a, b)
    ensures M.Normalized(a) == M.Normalized(b)
  {
    hide M.RoleOk, M.AgentOk, M.WorkflowOk, M.PolicyOk, M.CapabilityOk, M.ArtifactOk, M.EvidenceOk, M.OneGovernor;
    hide M.NormalRole, M.NormalAgent, M.NormalWorkflow, M.NormalPolicy, M.NormalCapability, M.NormalArtifact, M.NormalEvidence;
    hide M.SameArtifact, M.SameEvidence;
    forall i | 0 <= i < |a.artifactTypes|
      ensures M.NormalArtifact(a.artifactTypes[i]) == M.NormalArtifact(b.artifactTypes[i])
    {
      M.ArtifactIffSame(a.artifactTypes[i], b.artifactTypes[i]);
    }
    forall i | 0 <= i < |a.evidenceTypes|
      ensures M.NormalEvidence(a.evidenceTypes[i]) == M.NormalEvidence(b.evidenceTypes[i])
    {
      M.EvidenceIffSame(a.evidenceTypes[i], b.evidenceTypes[i], d);
    }
    assert MapAll(M.NormalArtifact, a.artifactTypes) == MapAll(M.NormalArtifact, b.artifactTypes);
    assert MapAll(M.NormalEvidence, a.evidenceTypes) == MapAll(M.NormalEvidence, b.evidenceTypes);
  }

  /** Validation accepts both or neither, and returns the same. */
  lemma RewrittenIsTheSame(a: M.Manifest, b: M.Manifest)
    requires M.Valid(a) && Rewritten(a, b)
    ensures M.Valid(b) && M.Normalized(b) == M.Normalized(a)
  {
    hide M.Normalized, M.Renders, M.IdsDistinct, M.EntriesOk, Rewritten;
    SectionsNormal(a, b, M.DeclaredIn(a));
    M.NormalizedRenders(a);
    M.NormalizedRenders(b);
    M.RenderingStaysValid(a, M.Normalized(a));
    M.RenderingStaysValid(b, M.Normalized(b));
  }

  lemma SelfAlike(v: Json)
    requires Printable(v)
    ensures Alike(v, v)
  {
    C.NormalIffSame(v, v);
  }

  /** Valid manifests with the same JSON are validated to the same manifest. */
  lemma ManifestDecides(a: M.Manifest, b: M.Manifest)
    requires M.Valid(a) && M.Valid(b) && Alike(ManifestValue(a), ManifestValue(b))
    ensures M.Normalized(a) == M.Normalized(b)
  {
    hide Alike, AlikeOption, Record, Fields, SectionsJson, StringOf, CoreOf, MetadataOf, ListOf, ReadSections, Rewritten;
    hide M.Valid, M.Normalized;
    var w := ManifestValue(b);
    MeansPrintable(ManifestValue(a), w);
    SelfAlike(w);
    DocumentKeysAreDistinct();
    RecordReads(TOP_KEYS, TopValues(a), w);
    RecordReads(TOP_KEYS, TopValues(b), w);
    var f := Fields(w, TOP_KEYS).value;
    HeaderReads(a, f);
    HeaderReads(b, f);
    assert a.header == b.header && a.dependencies == b.dependencies;
    SectionsRead(a, f[6].value);
    SectionsRead(b, f[6].value);
    var r := ReadSections(f[6].value, a.header, a.dependencies).value;
    RewrittenIsTheSame(a, r);
    RewrittenIsTheSame(b, r);
  }

  lemma MeansPrintable(v: Json, w: Json)
    requires Alike(v, w)
    ensures Printable(v) && Printable(w)
  {
  }

  // ----- how deep a document nests

  /** How deep a valid manifest's document nests. */
  lemma SectionsDepth(m: M.Manifest)
    requires M.Valid(m)
    ensures Depth(SectionsJson(m)) <= 11
  {
    hide Record, Listed, M.SchemaOk, M.DeclaredIn, M.IdsDistinct, M.OneGovernor, M.RoleOk, M.AgentOk, M.WorkflowOk, M.PolicyOk, M.CapabilityOk;
    hide RoleJson, PlainJson, WorkflowJson, AgentJson, PolicyJson, CapabilityJson, ArtifactJson, EvidenceJson;
    forall x { RoleDepth(x); }
    forall x { PlainDepth(x); }
    forall x { WorkflowDepth(x); }
    forall x { AgentDepth(x); }
    forall x { PolicyDepth(x); }
    forall x { CapabilityDepth(x); }
    forall x | x in m.artifactTypes
      ensures Depth(ArtifactJson(x)) <= 9
    {
      ArtifactDepth(x);
    }
    forall x | x in m.evidenceTypes
      ensures Depth(EvidenceJson(x)) <= 9
    {
      EvidenceDepth(x);
    }
    ListDepth(RoleJson, m.roles, 9);
    ListDepth(PlainJson, m.taskTypes, 9);
    ListDepth(WorkflowJson, m.workflows, 9);
    ListDepth(AgentJson, m.agents, 9);
    ListDepth(ArtifactJson, m.artifactTypes, 9);
    ListDepth(EvidenceJson, m.evidenceTypes, 9);
    ListDepth(PolicyJson, m.policies, 9);
    ListDepth(PlainJson, m.knowledge, 9);
    ListDepth(CapabilityJson, m.capabilities, 9);
    ListDepth(PlainJson, m.prompts, 9);
    RecordDepth(SECTION_KEYS, SectionValues(m), 10);
  }

  lemma DocumentDepth(m: M.Manifest, digest: JsString)
    requires M.Valid(m)
    ensures Depth(DocumentValue(m, digest)) <= NESTING_LIMIT && Depth(ManifestValue(m)) <= NESTING_LIMIT
  {
    hide Record, Listed, SectionsJson, DependencyJson, M.Valid;
    SectionsDepth(m);
    forall x { DependencyDepth(x); }
    ListDepth(DependencyJson, m.dependencies, 1);
    HeaderDepth(m.header);
    RecordDepth(DOCUMENT_KEYS, DocumentValues(m, digest), 11);
    RecordDepth(TOP_KEYS, TopValues(m), 11);
  }

  lemma HeaderDepth(h: M.Header)
    ensures Depth(CoreJson(h)) <= 1 && Depth(MetadataJson(h)) <= 1
  {
    hide Record;
    RecordDepth(CORE_KEYS, CoreValues(h), 0);
    RecordDepth(METADATA_KEYS, MetadataValues(h), 0);
  }
}
