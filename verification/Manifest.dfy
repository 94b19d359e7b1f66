/** Domain pack manifests: the references each section makes to the others, the normal form
    validation gives them, and the canonical form a digest is computed from. */
module Manifests {
  import opened Options
  import opened JsStrings
  import opened KeyedLists
  import opened ManifestSchemas

  datatype Text = Text(title: Option<JsString>, description: Option<JsString>)

  type Names = Option<seq<JsString>>

  /** Task types, knowledge entries and prompts, as far as references go. */
  datatype Plain = Plain(id: JsString, text: Text)

  datatype Role = Role(id: JsString, text: Text, capabilities: Names, responsibilities: Names)

  datatype Agent = Agent(id: JsString, text: Text, role: Option<JsString>, prompts: Names, knowledge: Names, capabilities: Names)

  datatype Stage = Stage(id: JsString, role: JsString, text: Text, checks: Names)

  datatype Workflow = Workflow(id: JsString, text: Text, taskType: JsString, additional: Names, stages: seq<Stage>)

  datatype Clause = Clause(stage: JsString, approval: bool, independent: bool, differentFrom: Names, operations: Names)

  datatype Policy = Policy(id: JsString, text: Text, workflow: Option<JsString>, enforced: bool, stages: Option<seq<Clause>>)

  datatype Operation = Operation(name: JsString, mutation: bool)

  datatype Requirement = Required | Optional

  datatype Capability = Capability(id: JsString, text: Text, operations: Option<seq<Operation>>, requirement: Option<Requirement>)

  datatype ArtifactType = ArtifactType(id: JsString, text: Text, mediaTypes: Names, maximumBytes: Option<nat>, schema: Option<Schema>)

  datatype EvidenceType = EvidenceType(id: JsString, text: Text, subject: Option<JsString>, schema: Option<Schema>)

  datatype Dependency = Dependency(id: JsString, version: JsString, digest: JsString)

  datatype Header = Header(id: JsString, version: JsString, minInclusive: nat, maxExclusive: nat, name: JsString, description: JsString)

  datatype Manifest = Manifest(
    header: Header, dependencies: seq<Dependency>, roles: seq<Role>, taskTypes: seq<Plain>, workflows: seq<Workflow>,
    agents: seq<Agent>, artifactTypes: seq<ArtifactType>, evidenceTypes: seq<EvidenceType>, policies: seq<Policy>,
    knowledge: seq<Plain>, capabilities: seq<Capability>, prompts: seq<Plain>)

  const MAX_REFERENCES: nat := 1000
  const MAX_DESCRIPTIONS: nat := 64
  const MAX_CAPABILITY_OPERATIONS: nat := 100
  const MAX_STAGE_OPERATIONS: nat := 64
  const MAX_MEDIA_TYPES: nat := 16
  const MAX_ARTIFACT_BYTES: nat := 67_108_864

  function PlainId(x: Plain): JsString { x.id }
  function RoleId(x: Role): JsString { x.id }
  function AgentId(x: Agent): JsString { x.id }
  function WorkflowId(x: Workflow): JsString { x.id }
  function PolicyId(x: Policy): JsString { x.id }
  function ClauseStage(x: Clause): JsString { x.stage }
  function OperationName(x: Operation): JsString { x.name }
  function CapabilityId(x: Capability): JsString { x.id }
  function ArtifactId(x: ArtifactType): JsString { x.id }
  function EvidenceId(x: EvidenceType): JsString { x.id }
  function DependencyId(x: Dependency): JsString { x.id }

  // ----- what may be referred to

  /** Everything a reference can be checked against. */
  datatype Declared = Declared(
    capabilities: set<JsString>, prompts: set<JsString>, knowledge: set<JsString>, taskTypes: set<JsString>,
    artifactTypes: set<JsString>, roles: set<JsString>, granted: set<(JsString, JsString)>,
    orders: set<(JsString, seq<JsString>)>)

  function StageIds(stages: seq<Stage>): (r: seq<JsString>)
    ensures |r| == |stages| && forall i :: 0 <= i < |r| ==> r[i] == stages[i].id
  {
    seq(|stages|, i requires 0 <= i < |stages| => stages[i].id)
  }

  function Listed(names: Names): set<JsString> { if names.None? then {} else set x | x in names.value }

  function Granted(roles: seq<Role>): set<(JsString, JsString)> { set r, c | r in roles && c in Listed(r.capabilities) :: (r.id, c) }

  function DeclaredIn(m: Manifest): Declared {
    Declared(
      set x | x in m.capabilities :: x.id, set x | x in m.prompts :: x.id, set x | x in m.knowledge :: x.id,
      set x | x in m.taskTypes :: x.id, set x | x in m.artifactTypes :: x.id, set x | x in m.roles :: x.id,
      Granted(m.roles), set x | x in m.workflows :: (x.id, StageIds(x.stages)))
  }

  /** A list of references: at least one, no more than allowed, none twice. */
  predicate ListOk(names: Names, most: nat) { names.Some? ==> 1 <= |names.value| <= most && Distinct(names.value) }

  predicate DescriptionsOk(texts: Names) {
    texts.Some? ==> 1 <= |texts.value| <= MAX_DESCRIPTIONS && forall t :: t in texts.value ==> t != []
  }

  // ----- each kind: accepted, normalised, the same

  predicate RoleOk(r: Role, d: Declared) {
    && ListOk(r.capabilities, MAX_REFERENCES) && DescriptionsOk(r.responsibilities)
    && Listed(r.capabilities) <= d.capabilities
  }

  function NormalRole(r: Role): Role { r.(capabilities := SortOption(r.capabilities)) }

  ghost predicate SameRole(a: Role, b: Role) {
    a.(capabilities := None) == b.(capabilities := None) && SameOption(a.capabilities, b.capabilities)
  }

  predicate AgentOk(a: Agent, d: Declared) {
    && ListOk(a.prompts, MAX_REFERENCES) && ListOk(a.knowledge, MAX_REFERENCES) && ListOk(a.capabilities, MAX_REFERENCES)
    && (a.role.Some? ==> a.role.value in d.roles)
    && Listed(a.prompts) <= d.prompts && Listed(a.knowledge) <= d.knowledge && Listed(a.capabilities) <= d.capabilities
    && (a.capabilities.Some? ==> a.role.Some? && forall c :: c in a.capabilities.value ==> (a.role.value, c) in d.granted)
  }

  function NormalAgent(a: Agent): Agent {
    a.(prompts := SortOption(a.prompts), knowledge := SortOption(a.knowledge), capabilities := SortOption(a.capabilities))
  }

  ghost predicate SameAgent(a: Agent, b: Agent) {
    && a.(prompts := None, knowledge := None, capabilities := None) == b.(prompts := None, knowledge := None, capabilities := None)
    && SameOption(a.prompts, b.prompts) && SameOption(a.knowledge, b.knowledge) && SameOption(a.capabilities, b.capabilities)
  }

  predicate StageOk(s: Stage) { DescriptionsOk(s.checks) }

  predicate WorkflowOk(w: Workflow, d: Declared) {
    && ListOk(w.additional, MAX_REFERENCES) && Distinct(StageIds(w.stages)) && (forall s :: s in w.stages ==> StageOk(s))
    && Listed(w.additional) <= d.taskTypes && w.taskType !in Listed(w.additional)
  }

  function NormalWorkflow(w: Workflow): Workflow { w.(additional := SortOption(w.additional)) }

  /** Stages are a list, not a set: their order is part of what the workflow says. */
  ghost predicate SameWorkflow(a: Workflow, b: Workflow) {
    a.(additional := None) == b.(additional := None) && SameOption(a.additional, b.additional)
  }

  predicate ClauseShape(c: Clause) {
    && ListOk(c.differentFrom, MAX_REFERENCES) && ListOk(c.operations, MAX_STAGE_OPERATIONS)
    && (c.independent ==> c.approval) && (c.approval || c.differentFrom.Some? || c.operations.Some?)
  }

  /** The separation targets stand before the stage in the workflow's order. */
  predicate ClauseFits(c: Clause, order: seq<JsString>) {
    exists at :: && 0 <= at < |order| && order[at] == c.stage
                 && forall x :: x in Listed(c.differentFrom) ==> x in order[..at]
  }

  function NormalClause(c: Clause): Clause {
    c.(differentFrom := SortOption(c.differentFrom), operations := SortOption(c.operations))
  }

  ghost predicate SameClause(a: Clause, b: Clause) {
    && a.(differentFrom := None, operations := None) == b.(differentFrom := None, operations := None)
    && SameOption(a.differentFrom, b.differentFrom) && SameOption(a.operations, b.operations)
  }

  predicate ClausesDistinct(clauses: seq<Clause>) {
    forall i, j :: 0 <= i < j < |clauses| ==> clauses[i].stage != clauses[j].stage
  }

  predicate PolicyOk(p: Policy, d: Declared) {
    if p.workflow.None? then !p.enforced && p.stages.None?
    else
      && (p.enforced || p.stages.Some?)
      && (p.stages.Some? ==> p.stages.value != [] && ClausesDistinct(p.stages.value) && forall c :: c in p.stages.value ==> ClauseShape(c))
      && exists o :: o in d.orders && PolicyFits(p, o)
  }

  predicate PolicyFits(p: Policy, o: (JsString, seq<JsString>)) {
    Some(o.0) == p.workflow && (p.stages.Some? ==> forall c :: c in p.stages.value ==> ClauseFits(c, o.1))
  }

  function NormalPolicy(p: Policy): Policy {
    p.(stages := if p.stages.None? then None else Some(NormalClauses(p.stages.value)))
  }

  ghost predicate SamePolicy(a: Policy, b: Policy) {
    && a.(stages := None) == b.(stages := None) && a.stages.Some? == b.stages.Some?
    && (a.stages.Some? ==> Matches(SameClause, a.stages.value, b.stages.value))
  }

  /** No two policies govern one workflow. */
  predicate OneGovernor(policies: seq<Policy>) {
    forall p, q :: p in policies && q in policies && p.workflow.Some? && p.workflow == q.workflow ==> p.id == q.id
  }

  predicate OperationsDistinct(operations: seq<Operation>) {
    forall i, j :: 0 <= i < j < |operations| ==> operations[i].name != operations[j].name
  }

  predicate CapabilityOk(c: Capability) {
    if c.operations.None? then c.requirement.None?
    else 1 <= |c.operations.value| <= MAX_CAPABILITY_OPERATIONS && OperationsDistinct(c.operations.value)
  }

  function NormalCapability(c: Capability): Capability {
    if c.operations.None? then c
    else
      c.(operations := Some(SortBy(OperationName, c.operations.value)),
         requirement := Some(Effective(c.requirement)))
  }

  /** An absent requirement says `required`. */
  function Effective(r: Option<Requirement>): Requirement { if r.None? then Required else r.value }

  ghost predicate SameCapability(a: Capability, b: Capability) {
    && a.id == b.id && a.text == b.text && a.operations.Some? == b.operations.Some?
    && (if a.operations.None? then a.requirement == b.requirement
        else
          && multiset(a.operations.value) == multiset(b.operations.value)
          && Effective(a.requirement) == Effective(b.requirement))
  }

  predicate SchemaOk(s: Option<Schema>) { s.Some? ==> Accepts(s.value) }

  function NormalSchema(s: Option<Schema>): Option<Schema> { if s.None? then None else Some(Normal(s.value)) }

  ghost predicate SameSchema(a: Option<Schema>, b: Option<Schema>) { a.Some? == b.Some? && (a.Some? ==> Same(a.value, b.value)) }

  predicate ArtifactOk(a: ArtifactType) {
    && ListOk(a.mediaTypes, MAX_MEDIA_TYPES) && (a.maximumBytes.Some? ==> 1 <= a.maximumBytes.value <= MAX_ARTIFACT_BYTES)
    && SchemaOk(a.schema)
  }

  function NormalArtifact(a: ArtifactType): ArtifactType {
    a.(mediaTypes := SortOption(a.mediaTypes), schema := NormalSchema(a.schema))
  }

  ghost predicate SameArtifact(a: ArtifactType, b: ArtifactType) {
    && a.(mediaTypes := None, schema := None) == b.(mediaTypes := None, schema := None)
    && SameOption(a.mediaTypes, b.mediaTypes) && SameSchema(a.schema, b.schema)
  }

  predicate EvidenceOk(e: EvidenceType, d: Declared) {
    (e.subject.Some? ==> e.subject.value in d.artifactTypes) && SchemaOk(e.schema)
  }

  function NormalEvidence(e: EvidenceType): EvidenceType { e.(schema := NormalSchema(e.schema)) }

  ghost predicate SameEvidence(a: EvidenceType, b: EvidenceType) {
    a.(schema := None) == b.(schema := None) && SameSchema(a.schema, b.schema)
  }

  // ----- the whole manifest

  predicate IdsDistinct(m: Manifest) {
    && DistinctBy(DependencyId, m.dependencies) && DistinctBy(RoleId, m.roles) && DistinctBy(PlainId, m.taskTypes)
    && DistinctBy(WorkflowId, m.workflows) && DistinctBy(AgentId, m.agents) && DistinctBy(ArtifactId, m.artifactTypes)
    && DistinctBy(EvidenceId, m.evidenceTypes) && DistinctBy(PolicyId, m.policies) && DistinctBy(PlainId, m.knowledge)
    && DistinctBy(CapabilityId, m.capabilities) && DistinctBy(PlainId, m.prompts)
  }

  predicate EntriesOk(m: Manifest, d: Declared) {
    && (forall x :: x in m.roles ==> RoleOk(x, d)) && (forall x :: x in m.agents ==> AgentOk(x, d))
    && (forall x :: x in m.workflows ==> WorkflowOk(x, d)) && (forall x :: x in m.policies ==> PolicyOk(x, d))
    && (forall x :: x in m.capabilities ==> CapabilityOk(x)) && (forall x :: x in m.artifactTypes ==> ArtifactOk(x))
    && (forall x :: x in m.evidenceTypes ==> EvidenceOk(x, d)) && OneGovernor(m.policies)
  }

  /** The core contract versions a pack is made for: a non-empty interval. */
  predicate HeaderOk(h: Header) { h.minInclusive < h.maxExclusive }

  ghost predicate Valid(m: Manifest) { HeaderOk(m.header) && IdsDistinct(m) && EntriesOk(m, DeclaredIn(m)) }

  /** What validation returns: every set in one order, the sections as written. */
  function Normalized(m: Manifest): Manifest {
    m.(roles := MapAll(NormalRole, m.roles), workflows := MapAll(NormalWorkflow, m.workflows),
       agents := MapAll(NormalAgent, m.agents), artifactTypes := MapAll(NormalArtifact, m.artifactTypes),
       evidenceTypes := MapAll(NormalEvidence, m.evidenceTypes), policies := MapAll(NormalPolicy, m.policies),
       capabilities := MapAll(NormalCapability, m.capabilities))
  }

  /** What is printed and hashed: the sections and the dependencies in one order as well. */
  function Canonical(m: Manifest): Manifest {
    var n := Normalized(m);
    n.(dependencies := SortBy(DependencyId, n.dependencies), roles := SortBy(RoleId, n.roles),
       taskTypes := SortBy(PlainId, n.taskTypes), workflows := SortBy(WorkflowId, n.workflows),
       agents := SortBy(AgentId, n.agents), artifactTypes := SortBy(ArtifactId, n.artifactTypes),
       evidenceTypes := SortBy(EvidenceId, n.evidenceTypes), policies := SortBy(PolicyId, n.policies),
       knowledge := SortBy(PlainId, n.knowledge), capabilities := SortBy(CapabilityId, n.capabilities),
       prompts := SortBy(PlainId, n.prompts))
  }

  /** The same manifest with dependencies, contributions and set-valued fields written in
      another order. */
  ghost predicate Reordered(a: Manifest, b: Manifest) {
    && a.header == b.header
    && multiset(a.dependencies) == multiset(b.dependencies) && multiset(a.taskTypes) == multiset(b.taskTypes)
    && multiset(a.knowledge) == multiset(b.knowledge) && multiset(a.prompts) == multiset(b.prompts)
    && Matches(SameRole, a.roles, b.roles) && Matches(SameWorkflow, a.workflows, b.workflows)
    && Matches(SameAgent, a.agents, b.agents) && Matches(SameArtifact, a.artifactTypes, b.artifactTypes)
    && Matches(SameEvidence, a.evidenceTypes, b.evidenceTypes) && Matches(SamePolicy, a.policies, b.policies)
    && Matches(SameCapability, a.capabilities, b.capabilities)
  }

  // ----- sets

  lemma SortedNames(names: Names, most: nat)
    ensures ListOk(SortOption(names), most) <==> ListOk(names, most)
    ensures Listed(SortOption(names)) == Listed(names)
    ensures SortOption(SortOption(names)) == SortOption(names)
  {
    if names.Some? { SortedList(names.value); }
  }

  lemma RoleForm(r: Role, d: Declared)
    ensures RoleOk(NormalRole(r), d) <==> RoleOk(r, d)
    ensures NormalRole(NormalRole(r)) == NormalRole(r)
  {
    SortedNames(r.capabilities, MAX_REFERENCES);
  }

  lemma RoleIffSame(a: Role, b: Role)
    ensures NormalRole(a) == NormalRole(b) <==> SameRole(a, b)
  {
    SortedOptionIffSame(a.capabilities, b.capabilities);
  }

  lemma AgentForm(a: Agent, d: Declared)
    ensures AgentOk(NormalAgent(a), d) <==> AgentOk(a, d)
    ensures NormalAgent(NormalAgent(a)) == NormalAgent(a)
  {
    SortedNames(a.prompts, MAX_REFERENCES);
    SortedNames(a.knowledge, MAX_REFERENCES);
    SortedNames(a.capabilities, MAX_REFERENCES);
    if a.capabilities.Some? { SortedList(a.capabilities.value); }
  }

  lemma AgentIffSame(a: Agent, b: Agent)
    ensures NormalAgent(a) == NormalAgent(b) <==> SameAgent(a, b)
  {
    SortedOptionIffSame(a.prompts, b.prompts);
    SortedOptionIffSame(a.knowledge, b.knowledge);
    SortedOptionIffSame(a.capabilities, b.capabilities);
  }

  lemma WorkflowForm(w: Workflow, d: Declared)
    ensures WorkflowOk(NormalWorkflow(w), d) <==> WorkflowOk(w, d)
    ensures NormalWorkflow(NormalWorkflow(w)) == NormalWorkflow(w)
  {
    SortedNames(w.additional, MAX_REFERENCES);
  }

  lemma WorkflowIffSame(a: Workflow, b: Workflow)
    ensures NormalWorkflow(a) == NormalWorkflow(b) <==> SameWorkflow(a, b)
  {
    SortedOptionIffSame(a.additional, b.additional);
  }

  lemma ClauseForm(c: Clause, order: seq<JsString>)
    ensures ClauseShape(NormalClause(c)) <==> ClauseShape(c)
    ensures ClauseFits(NormalClause(c), order) <==> ClauseFits(c, order)
    ensures NormalClause(NormalClause(c)) == NormalClause(c)
  {
    SortedNames(c.differentFrom, MAX_REFERENCES);
    SortedNames(c.operations, MAX_STAGE_OPERATIONS);
  }

  lemma ClauseIffSame(a: Clause, b: Clause)
    ensures NormalClause(a) == NormalClause(b) <==> SameClause(a, b)
  {
    SortedOptionIffSame(a.differentFrom, b.differentFrom);
    SortedOptionIffSame(a.operations, b.operations);
  }

  /** `t` holds the normal forms of the entries of `s`, in some order. */
  ghost predicate Image<T(!new)>(normal: T -> T, s: seq<T>, t: seq<T>) {
    && (forall y :: y in t ==> exists x :: x in s && normal(x) == y)
    && (forall x :: x in s ==> normal(x) in t)
    && |s| == |t|
  }

  lemma MappedIsImage<T(!new)>(key: T -> JsString, normal: T -> T, s: seq<T>)
    requires KeepsKey(key, normal)
    ensures Image(normal, s, MapAll(normal, s)) && Image(normal, s, SortBy(key, MapAll(normal, s)))
    ensures DistinctBy(key, MapAll(normal, s)) <==> DistinctBy(key, s)
    ensures DistinctBy(key, SortBy(key, MapAll(normal, s))) <==> DistinctBy(key, s)
  {
    MappedMembers(normal, s);
    SectionMembers(key, normal, s);
    MappedDistinct(key, normal, s);
  }

  lemma ImageOk<T(!new)>(normal: T -> T, ok: T -> bool, s: seq<T>, t: seq<T>)
    requires Image(normal, s, t) && forall x :: x in s ==> (ok(normal(x)) <==> ok(x))
    ensures (forall y :: y in t ==> ok(y)) <==> (forall x :: x in s ==> ok(x))
  {
  }

  lemma MappedTwice<T(!new)>(normal: T -> T, s: seq<T>)
    requires forall x :: x in s ==> normal(normal(x)) == normal(x)
    ensures MapAll(normal, MapAll(normal, s)) == MapAll(normal, s)
  {
    assert forall i :: 0 <= i < |s| ==> s[i] in s;
  }

  function NormalClauses(clauses: seq<Clause>): seq<Clause> { SortBy(ClauseStage, MapAll(NormalClause, clauses)) }

  lemma ClausesImage(clauses: seq<Clause>)
    ensures Image(NormalClause, clauses, NormalClauses(clauses))
    ensures ClausesDistinct(NormalClauses(clauses)) <==> ClausesDistinct(clauses)
  {
    hide SortBy, Image, NormalClause;
    ClauseKeepsStage();
    MappedIsImage(ClauseStage, NormalClause, clauses);
    DistinctClauses(clauses);
    DistinctClauses(NormalClauses(clauses));
  }

  lemma ClausesFit(clauses: seq<Clause>, order: seq<JsString>)
    ensures (forall c :: c in NormalClauses(clauses) ==> ClauseFits(c, order)) <==> (forall c :: c in clauses ==> ClauseFits(c, order))
  {
    hide SortBy, NormalClause, ClauseFits;
    ClausesImage(clauses);
    forall c
      ensures ClauseFits(NormalClause(c), order) <==> ClauseFits(c, order)
    {
      ClauseForm(c, order);
    }
    ImageOk(NormalClause, c => ClauseFits(c, order), clauses, NormalClauses(clauses));
  }

  lemma ClausesShaped(clauses: seq<Clause>)
    ensures (forall c :: c in NormalClauses(clauses) ==> ClauseShape(c)) <==> (forall c :: c in clauses ==> ClauseShape(c))
  {
    hide SortBy, NormalClause, ClauseShape;
    ClausesImage(clauses);
    forall c
      ensures ClauseShape(NormalClause(c)) <==> ClauseShape(c)
    {
      ClauseForm(c, []);
    }
    ImageOk(NormalClause, ClauseShape, clauses, NormalClauses(clauses));
  }

  lemma ClausesNormalTwice(clauses: seq<Clause>)
    requires ClausesDistinct(clauses)
    ensures NormalClauses(NormalClauses(clauses)) == NormalClauses(clauses)
  {
    hide SortBy, NormalClause;
    var r := NormalClauses(clauses);
    ClausesImage(clauses);
    DistinctClauses(r);
    forall c
      ensures NormalClause(NormalClause(c)) == NormalClause(c)
    {
      ClauseForm(c, []);
    }
    assert forall i :: 0 <= i < |r| ==> r[i] in r && NormalClause(r[i]) == r[i];
    assert MapAll(NormalClause, r) == r;
    ClauseKeepsStage();
    MappedDistinct(ClauseStage, NormalClause, clauses);
    DistinctClauses(clauses);
    SortedStaysDistinct(ClauseStage, MapAll(NormalClause, clauses));
  }

  lemma ClauseKeepsStage()
    ensures KeepsKey(ClauseStage, NormalClause)
  {
  }

  lemma DistinctClauses(clauses: seq<Clause>)
    ensures ClausesDistinct(clauses) <==> DistinctBy(ClauseStage, clauses)
  {
    assert forall i :: 0 <= i < |clauses| ==> ClauseStage(clauses[i]) == clauses[i].stage;
  }

  lemma PolicyForm(p: Policy, d: Declared)
    ensures PolicyOk(NormalPolicy(p), d) <==> PolicyOk(p, d)
    ensures PolicyOk(p, d) ==> NormalPolicy(NormalPolicy(p)) == NormalPolicy(p)
  {
    hide ClauseShape, ClauseFits, NormalClauses, ClausesDistinct;
    var n := NormalPolicy(p);
    if p.stages.Some? {
      ClausesImage(p.stages.value);
      ClausesShaped(p.stages.value);
      if ClausesDistinct(p.stages.value) { ClausesNormalTwice(p.stages.value); }
    }
    forall o | o in d.orders
      ensures PolicyFits(n, o) <==> PolicyFits(p, o)
    {
      if p.stages.Some? { ClausesFit(p.stages.value, o.1); }
    }
  }

  lemma PolicyIffSame(a: Policy, b: Policy, d: Declared)
    requires PolicyOk(a, d)
    ensures NormalPolicy(a) == NormalPolicy(b) <==> SamePolicy(a, b)
  {
    hide ClauseShape, ClauseFits, NormalClause, SortBy, SameClause, PolicyFits;
    if a.stages.Some? && b.stages.Some? {
      ClauseKeepsStage();
      DistinctClauses(a.stages.value);
      forall x, y
        ensures NormalClause(x) == NormalClause(y) <==> SameClause(x, y)
      {
        ClauseIffSame(x, y);
      }
      SectionIffMatches(ClauseStage, NormalClause, SameClause, a.stages.value, b.stages.value);
    }
  }

  lemma DistinctOperations(operations: seq<Operation>)
    ensures OperationsDistinct(operations) <==> DistinctBy(OperationName, operations)
  {
    assert forall i :: 0 <= i < |operations| ==> OperationName(operations[i]) == operations[i].name;
  }

  lemma CapabilityForm(c: Capability)
    ensures CapabilityOk(NormalCapability(c)) <==> CapabilityOk(c)
    ensures CapabilityOk(c) ==> NormalCapability(NormalCapability(c)) == NormalCapability(c)
  {
    hide SortBy;
    if c.operations.Some? {
      var list := c.operations.value;
      SortByProperties(OperationName, list);
      SortedStaysDistinct(OperationName, list);
      DistinctOperations(list);
      DistinctOperations(SortBy(OperationName, list));
    }
  }

  lemma CapabilityIffSame(a: Capability, b: Capability)
    requires CapabilityOk(a)
    ensures NormalCapability(a) == NormalCapability(b) <==> SameCapability(a, b)
  {
    hide SortBy;
    if a.operations.Some? && b.operations.Some? {
      DistinctOperations(a.operations.value);
      SortedIffPermuted(OperationName, a.operations.value, b.operations.value);
    }
  }

  lemma SchemaForm(s: Option<Schema>)
    ensures SchemaOk(NormalSchema(s)) <==> SchemaOk(s)
    ensures SchemaOk(s) ==> NormalSchema(NormalSchema(s)) == NormalSchema(s)
  {
    hide Accepts, Normal, Same;
    if s.Some? { SchemaNormalForm(s.value, s.value); }
  }

  lemma SchemaIffSame(a: Option<Schema>, b: Option<Schema>)
    requires SchemaOk(a)
    ensures NormalSchema(a) == NormalSchema(b) <==> SameSchema(a, b)
  {
    hide Normal, Same, WellShaped;
    if a.Some? && b.Some? { NormalIffSame(a.value, b.value, 1); }
  }

  lemma ArtifactForm(a: ArtifactType)
    ensures ArtifactOk(NormalArtifact(a)) <==> ArtifactOk(a)
    ensures ArtifactOk(a) ==> NormalArtifact(NormalArtifact(a)) == NormalArtifact(a)
  {
    hide NormalSchema, SchemaOk;
    SortedNames(a.mediaTypes, MAX_MEDIA_TYPES);
    SchemaForm(a.schema);
  }

  lemma ArtifactIffSame(a: ArtifactType, b: ArtifactType)
    requires ArtifactOk(a)
    ensures NormalArtifact(a) == NormalArtifact(b) <==> SameArtifact(a, b)
  {
    hide NormalSchema, SchemaOk, SameSchema;
    SortedOptionIffSame(a.mediaTypes, b.mediaTypes);
    SchemaIffSame(a.schema, b.schema);
  }

  lemma EvidenceForm(e: EvidenceType, d: Declared)
    ensures EvidenceOk(NormalEvidence(e), d) <==> EvidenceOk(e, d)
    ensures EvidenceOk(e, d) ==> NormalEvidence(NormalEvidence(e)) == NormalEvidence(e)
  {
    hide NormalSchema, SchemaOk;
    SchemaForm(e.schema);
  }

  lemma EvidenceIffSame(a: EvidenceType, b: EvidenceType, d: Declared)
    requires EvidenceOk(a, d)
    ensures NormalEvidence(a) == NormalEvidence(b) <==> SameEvidence(a, b)
  {
    hide NormalSchema, SchemaOk, SameSchema;
    SchemaIffSame(a.schema, b.schema);
  }

  // ----- the whole manifest, section by section

  ghost predicate SameMembers<T(!new)>(a: seq<T>, b: seq<T>) { forall x :: x in a <==> x in b }

  /** `r` holds the normal forms of what `m` holds, in some order. */
  ghost predicate Renders(m: Manifest, r: Manifest) {
    && r.header == m.header && Image(NormalRole, m.roles, r.roles) && Image(NormalWorkflow, m.workflows, r.workflows)
    && Image(NormalAgent, m.agents, r.agents) && Image(NormalArtifact, m.artifactTypes, r.artifactTypes)
    && Image(NormalEvidence, m.evidenceTypes, r.evidenceTypes) && Image(NormalPolicy, m.policies, r.policies)
    && Image(NormalCapability, m.capabilities, r.capabilities)
    && SameMembers(m.taskTypes, r.taskTypes) && SameMembers(m.knowledge, r.knowledge) && SameMembers(m.prompts, r.prompts)
  }

  ghost predicate AllKeepIds() {
    && KeepsKey(RoleId, NormalRole) && KeepsKey(WorkflowId, NormalWorkflow) && KeepsKey(AgentId, NormalAgent)
    && KeepsKey(ArtifactId, NormalArtifact) && KeepsKey(EvidenceId, NormalEvidence) && KeepsKey(PolicyId, NormalPolicy)
    && KeepsKey(CapabilityId, NormalCapability)
  }

  lemma NormalFormsKeepIds()
    ensures AllKeepIds()
  {
    hide NormalClauses, SortBy, SortOption, NormalSchema;
  }

  lemma NormalizedRenders(m: Manifest)
    ensures Renders(m, Normalized(m)) && (IdsDistinct(Normalized(m)) <==> IdsDistinct(m))
  {
    hide Image, KeepsKey, MapAll, SortBy, DistinctBy;
    NormalFormsKeepIds();
    MappedIsImage(RoleId, NormalRole, m.roles);
    MappedIsImage(WorkflowId, NormalWorkflow, m.workflows);
    MappedIsImage(AgentId, NormalAgent, m.agents);
    MappedIsImage(ArtifactId, NormalArtifact, m.artifactTypes);
    MappedIsImage(EvidenceId, NormalEvidence, m.evidenceTypes);
    MappedIsImage(PolicyId, NormalPolicy, m.policies);
    MappedIsImage(CapabilityId, NormalCapability, m.capabilities);
  }

  lemma SortedSection<T(!new)>(key: T -> JsString, s: seq<T>)
    ensures SameMembers(s, SortBy(key, s)) && (DistinctBy(key, SortBy(key, s)) <==> DistinctBy(key, s))
  {
    SortByProperties(key, s);
    SortedStaysDistinct(key, s);
  }

  lemma CanonicalRenders(m: Manifest)
    ensures Renders(m, Canonical(m)) && (IdsDistinct(Canonical(m)) <==> IdsDistinct(m))
  {
    hide Image, KeepsKey, MapAll, SortBy, DistinctBy, SameMembers;
    NormalFormsKeepIds();
    MappedIsImage(RoleId, NormalRole, m.roles);
    MappedIsImage(WorkflowId, NormalWorkflow, m.workflows);
    MappedIsImage(AgentId, NormalAgent, m.agents);
    MappedIsImage(ArtifactId, NormalArtifact, m.artifactTypes);
    MappedIsImage(EvidenceId, NormalEvidence, m.evidenceTypes);
    MappedIsImage(PolicyId, NormalPolicy, m.policies);
    MappedIsImage(CapabilityId, NormalCapability, m.capabilities);
    SortedSection(PlainId, m.taskTypes);
    SortedSection(PlainId, m.knowledge);
    SortedSection(PlainId, m.prompts);
    SortedSection(DependencyId, m.dependencies);
  }

  lemma DeclaredIdsStay(m: Manifest, r: Manifest)
    requires Renders(m, r)
    ensures (set x | x in r.capabilities :: x.id) == (set x | x in m.capabilities :: x.id)
    ensures (set x | x in r.artifactTypes :: x.id) == (set x | x in m.artifactTypes :: x.id)
    ensures (set x | x in r.roles :: x.id) == (set x | x in m.roles :: x.id)
  {
    hide SortBy, SortOption, NormalSchema;
    assert forall x :: NormalCapability(x).id == x.id;
    assert forall x :: NormalArtifact(x).id == x.id;
    assert forall x :: NormalRole(x).id == x.id;
  }

  lemma GrantedStays(s: seq<Role>, t: seq<Role>)
    requires Image(NormalRole, s, t)
    ensures Granted(t) == Granted(s)
  {
    hide SortOption, Listed;
    forall r
      ensures Listed(NormalRole(r).capabilities) == Listed(r.capabilities)
    {
      SortedNames(r.capabilities, MAX_REFERENCES);
    }
    forall pair
      ensures pair in Granted(t) <==> pair in Granted(s)
    {
      if pair in Granted(t) {
        var y :| y in t && pair.0 == y.id && pair.1 in Listed(y.capabilities);
        var x :| x in s && NormalRole(x) == y;
      }
      if pair in Granted(s) {
        var x :| x in s && pair.0 == x.id && pair.1 in Listed(x.capabilities);
        assert NormalRole(x) in t;
      }
    }
  }

  lemma OrdersStay(s: seq<Workflow>, t: seq<Workflow>)
    requires Image(NormalWorkflow, s, t)
    ensures (set x | x in t :: (x.id, StageIds(x.stages))) == (set x | x in s :: (x.id, StageIds(x.stages)))
  {
    hide SortOption, StageIds;
    var a, b := (set x | x in t :: (x.id, StageIds(x.stages))), (set x | x in s :: (x.id, StageIds(x.stages)));
    forall o
      ensures o in a <==> o in b
    {
      if o in a {
        var y :| y in t && o == (y.id, StageIds(y.stages));
        var x :| x in s && NormalWorkflow(x) == y;
      }
      if o in b {
        var x :| x in s && o == (x.id, StageIds(x.stages));
        assert NormalWorkflow(x) in t;
      }
    }
  }

  lemma PlainIds(s: seq<Plain>, t: seq<Plain>)
    requires SameMembers(s, t)
    ensures (set x | x in t :: x.id) == (set x | x in s :: x.id)
  {
  }

  lemma DeclarationsStay(m: Manifest, r: Manifest)
    requires Renders(m, r)
    ensures DeclaredIn(r) == DeclaredIn(m)
  {
    hide Image, Granted, StageIds;
    DeclaredIdsStay(m, r);
    GrantedStays(m.roles, r.roles);
    OrdersStay(m.workflows, r.workflows);
    PlainIds(m.prompts, r.prompts);
    PlainIds(m.knowledge, r.knowledge);
    PlainIds(m.taskTypes, r.taskTypes);
  }

  lemma GovernorsStay(s: seq<Policy>, t: seq<Policy>)
    requires Image(NormalPolicy, s, t)
    ensures OneGovernor(t) <==> OneGovernor(s)
  {
    hide NormalClauses;
    assert forall p :: NormalPolicy(p).workflow == p.workflow && NormalPolicy(p).id == p.id;
    if OneGovernor(t) {
      forall p, q | p in s && q in s && p.workflow.Some? && p.workflow == q.workflow
        ensures p.id == q.id
      {
        assert NormalPolicy(p) in t && NormalPolicy(q) in t;
      }
    }
    if OneGovernor(s) {
      forall p, q | p in t && q in t && p.workflow.Some? && p.workflow == q.workflow
        ensures p.id == q.id
      {
        var x :| x in s && NormalPolicy(x) == p;
        var y :| y in s && NormalPolicy(y) == q;
      }
    }
  }

  lemma RolesAndAgentsStayOk(m: Manifest, r: Manifest, d: Declared)
    requires Renders(m, r)
    ensures (forall x :: x in r.roles ==> RoleOk(x, d)) <==> (forall x :: x in m.roles ==> RoleOk(x, d))
    ensures (forall x :: x in r.agents ==> AgentOk(x, d)) <==> (forall x :: x in m.agents ==> AgentOk(x, d))
    ensures (forall x :: x in r.workflows ==> WorkflowOk(x, d)) <==> (forall x :: x in m.workflows ==> WorkflowOk(x, d))
  {
    hide Image, RoleOk, AgentOk, WorkflowOk, NormalRole, NormalAgent, NormalWorkflow;
    forall x { RoleForm(x, d); }
    forall x { AgentForm(x, d); }
    forall x { WorkflowForm(x, d); }
    ImageOk(NormalRole, x => RoleOk(x, d), m.roles, r.roles);
    ImageOk(NormalAgent, x => AgentOk(x, d), m.agents, r.agents);
    ImageOk(NormalWorkflow, x => WorkflowOk(x, d), m.workflows, r.workflows);
  }

  lemma OthersStayOk(m: Manifest, r: Manifest, d: Declared)
    requires Renders(m, r)
    ensures (forall x :: x in r.policies ==> PolicyOk(x, d)) <==> (forall x :: x in m.policies ==> PolicyOk(x, d))
    ensures (forall x :: x in r.capabilities ==> CapabilityOk(x)) <==> (forall x :: x in m.capabilities ==> CapabilityOk(x))
    ensures (forall x :: x in r.artifactTypes ==> ArtifactOk(x)) <==> (forall x :: x in m.artifactTypes ==> ArtifactOk(x))
    ensures (forall x :: x in r.evidenceTypes ==> EvidenceOk(x, d)) <==> (forall x :: x in m.evidenceTypes ==> EvidenceOk(x, d))
  {
    hide Image, PolicyOk, CapabilityOk, ArtifactOk, EvidenceOk, NormalPolicy, NormalCapability, NormalArtifact, NormalEvidence;
    forall x { PolicyForm(x, d); }
    forall x { CapabilityForm(x); }
    forall x { ArtifactForm(x); }
    forall x { EvidenceForm(x, d); }
    ImageOk(NormalPolicy, x => PolicyOk(x, d), m.policies, r.policies);
    ImageOk(NormalCapability, CapabilityOk, m.capabilities, r.capabilities);
    ImageOk(NormalArtifact, ArtifactOk, m.artifactTypes, r.artifactTypes);
    ImageOk(NormalEvidence, x => EvidenceOk(x, d), m.evidenceTypes, r.evidenceTypes);
  }

  /** Validity does not look at written order. */
  lemma RenderingStaysValid(m: Manifest, r: Manifest)
    requires Renders(m, r) && (IdsDistinct(r) <==> IdsDistinct(m))
    ensures Valid(r) <==> Valid(m)
  {
    hide Renders, IdsDistinct, RoleOk, AgentOk, WorkflowOk, PolicyOk, CapabilityOk, ArtifactOk, EvidenceOk, OneGovernor, DeclaredIn;
    DeclarationsStay(m, r);
    RolesAndAgentsStayOk(m, r, DeclaredIn(m));
    OthersStayOk(m, r, DeclaredIn(m));
    PoliciesOfRendering(m, r);
    SameHeader(m, r);
  }

  lemma SameHeader(m: Manifest, r: Manifest)
    requires Renders(m, r)
    ensures r.header == m.header
  {
    hide Image, SameMembers;
  }

  lemma PoliciesOfRendering(m: Manifest, r: Manifest)
    requires Renders(m, r)
    ensures OneGovernor(r.policies) <==> OneGovernor(m.policies)
  {
    GovernorsStay(m.policies, r.policies);
  }

  /** Validating what validation returned returns it unchanged. */
  lemma ValidationIsIdempotent(m: Manifest)
    requires Valid(m)
    ensures Valid(Normalized(m)) && Normalized(Normalized(m)) == Normalized(m)
  {
    NormalizedRenders(m);
    RenderingStaysValid(m, Normalized(m));
    NormalizedTwice(m, DeclaredIn(m));
  }

  lemma NormalizedTwice(m: Manifest, d: Declared)
    requires EntriesOk(m, d)
    ensures Normalized(Normalized(m)) == Normalized(m)
  {
    hide MapAll, RoleOk, AgentOk, WorkflowOk, PolicyOk, CapabilityOk, ArtifactOk, EvidenceOk, OneGovernor;
    hide NormalRole, NormalAgent, NormalWorkflow, NormalPolicy, NormalCapability, NormalArtifact, NormalEvidence;
    forall x { RoleForm(x, d); }
    forall x { AgentForm(x, d); }
    forall x { WorkflowForm(x, d); }
    forall x { PolicyForm(x, d); }
    forall x { CapabilityForm(x); }
    forall x { ArtifactForm(x); }
    forall x { EvidenceForm(x, d); }
    MappedTwice(NormalRole, m.roles);
    MappedTwice(NormalWorkflow, m.workflows);
    MappedTwice(NormalAgent, m.agents);
    MappedTwice(NormalArtifact, m.artifactTypes);
    MappedTwice(NormalEvidence, m.evidenceTypes);
    MappedTwice(NormalPolicy, m.policies);
    MappedTwice(NormalCapability, m.capabilities);
  }

  /** The canonical form is valid, and validating it or taking its canonical form returns it. */
  lemma CanonicalIsFixed(m: Manifest)
    requires Valid(m)
    ensures Valid(Canonical(m)) && Normalized(Canonical(m)) == Canonical(m) && Canonical(Canonical(m)) == Canonical(m)
  {
    hide Renders, IdsDistinct, Canonical, Normalized, EntriesOk;
    CanonicalRenders(m);
    RenderingStaysValid(m, Canonical(m));
    CanonicalTwice(m, DeclaredIn(m));
  }

  lemma CanonicalOfNormalized(m: Manifest)
    requires Valid(m)
    ensures Canonical(Normalized(m)) == Canonical(m)
  {
    hide SortBy, MapAll, Valid, Normalized;
    ValidationIsIdempotent(m);
    UnsortedStay(m);
  }

  lemma UnsortedStay(m: Manifest)
    ensures var n := Normalized(m);
            && n.header == m.header && n.dependencies == m.dependencies && n.taskTypes == m.taskTypes
            && n.knowledge == m.knowledge && n.prompts == m.prompts
  {
  }

  lemma CanonicalTwice(m: Manifest, d: Declared)
    requires IdsDistinct(m) && EntriesOk(m, d)
    ensures Normalized(Canonical(m)) == Canonical(m) && Canonical(Canonical(m)) == Canonical(m)
  {
    hide MapAll, SortBy, DistinctBy, KeepsKey, RoleOk, AgentOk, WorkflowOk, PolicyOk, CapabilityOk, ArtifactOk, EvidenceOk, OneGovernor;
    hide NormalRole, NormalAgent, NormalWorkflow, NormalPolicy, NormalCapability, NormalArtifact, NormalEvidence;
    NormalFormsKeepIds();
    forall x { RoleForm(x, d); }
    forall x { AgentForm(x, d); }
    forall x { WorkflowForm(x, d); }
    forall x { PolicyForm(x, d); }
    forall x { CapabilityForm(x); }
    forall x { ArtifactForm(x); }
    forall x { EvidenceForm(x, d); }
    SectionIsFixed(RoleId, NormalRole, m.roles);
    SectionIsFixed(WorkflowId, NormalWorkflow, m.workflows);
    SectionIsFixed(AgentId, NormalAgent, m.agents);
    SectionIsFixed(ArtifactId, NormalArtifact, m.artifactTypes);
    SectionIsFixed(EvidenceId, NormalEvidence, m.evidenceTypes);
    SectionIsFixed(PolicyId, NormalPolicy, m.policies);
    SectionIsFixed(CapabilityId, NormalCapability, m.capabilities);
    SortedStaysDistinct(DependencyId, m.dependencies);
    SortedStaysDistinct(PlainId, m.taskTypes);
    SortedStaysDistinct(PlainId, m.knowledge);
    SortedStaysDistinct(PlainId, m.prompts);
  }

  lemma CanonicalIffReordered(a: Manifest, b: Manifest)
    requires Valid(a)
    ensures Canonical(a) == Canonical(b) <==> Reordered(a, b)
  {
    hide MapAll, SortBy, DistinctBy, KeepsKey, Matches, EntriesOk;
    hide NormalRole, NormalAgent, NormalWorkflow, NormalPolicy, NormalCapability, NormalArtifact, NormalEvidence;
    hide SameRole, SameAgent, SameWorkflow, SamePolicy, SameCapability, SameArtifact, SameEvidence;
    SortedIffPermuted(DependencyId, a.dependencies, b.dependencies);
    SortedIffPermuted(PlainId, a.taskTypes, b.taskTypes);
    SortedIffPermuted(PlainId, a.knowledge, b.knowledge);
    SortedIffPermuted(PlainId, a.prompts, b.prompts);
    RoleSections(a, b, DeclaredIn(a));
    OtherSections(a, b, DeclaredIn(a));
  }

  lemma RoleSections(a: Manifest, b: Manifest, d: Declared)
    requires IdsDistinct(a)
    ensures SortBy(RoleId, MapAll(NormalRole, a.roles)) == SortBy(RoleId, MapAll(NormalRole, b.roles)) <==>
            Matches(SameRole, a.roles, b.roles)
    ensures SortBy(AgentId, MapAll(NormalAgent, a.agents)) == SortBy(AgentId, MapAll(NormalAgent, b.agents)) <==>
            Matches(SameAgent, a.agents, b.agents)
    ensures SortBy(WorkflowId, MapAll(NormalWorkflow, a.workflows)) == SortBy(WorkflowId, MapAll(NormalWorkflow, b.workflows)) <==>
            Matches(SameWorkflow, a.workflows, b.workflows)
  {
    hide MapAll, SortBy, DistinctBy, KeepsKey, Matches;
    hide NormalRole, NormalAgent, NormalWorkflow, SameRole, SameAgent, SameWorkflow;
    NormalFormsKeepIds();
    forall x, y { RoleIffSame(x, y); }
    forall x, y { AgentIffSame(x, y); }
    forall x, y { WorkflowIffSame(x, y); }
    SectionIffMatches(RoleId, NormalRole, SameRole, a.roles, b.roles);
    SectionIffMatches(AgentId, NormalAgent, SameAgent, a.agents, b.agents);
    SectionIffMatches(WorkflowId, NormalWorkflow, SameWorkflow, a.workflows, b.workflows);
  }

  lemma OtherSections(a: Manifest, b: Manifest, d: Declared)
    requires IdsDistinct(a) && EntriesOk(a, d)
    ensures SortBy(PolicyId, MapAll(NormalPolicy, a.policies)) == SortBy(PolicyId, MapAll(NormalPolicy, b.policies)) <==>
            Matches(SamePolicy, a.policies, b.policies)
    ensures SortBy(CapabilityId, MapAll(NormalCapability, a.capabilities)) == SortBy(CapabilityId, MapAll(NormalCapability, b.capabilities)) <==>
            Matches(SameCapability, a.capabilities, b.capabilities)
    ensures SortBy(ArtifactId, MapAll(NormalArtifact, a.artifactTypes)) == SortBy(ArtifactId, MapAll(NormalArtifact, b.artifactTypes)) <==>
            Matches(SameArtifact, a.artifactTypes, b.artifactTypes)
    ensures SortBy(EvidenceId, MapAll(NormalEvidence, a.evidenceTypes)) == SortBy(EvidenceId, MapAll(NormalEvidence, b.evidenceTypes)) <==>
            Matches(SameEvidence, a.evidenceTypes, b.evidenceTypes)
  {
    hide MapAll, SortBy, DistinctBy, KeepsKey, Matches, PolicyOk, CapabilityOk, ArtifactOk, EvidenceOk, RoleOk, AgentOk, WorkflowOk, OneGovernor;
    hide NormalPolicy, NormalCapability, NormalArtifact, NormalEvidence, SamePolicy, SameCapability, SameArtifact, SameEvidence;
    NormalFormsKeepIds();
    forall x, y | x in a.policies { PolicyIffSame(x, y, d); }
    forall x, y | x in a.capabilities { CapabilityIffSame(x, y); }
    forall x, y | x in a.artifactTypes { ArtifactIffSame(x, y); }
    forall x, y | x in a.evidenceTypes { EvidenceIffSame(x, y, d); }
    SectionIffMatches(PolicyId, NormalPolicy, SamePolicy, a.policies, b.policies);
    SectionIffMatches(CapabilityId, NormalCapability, SameCapability, a.capabilities, b.capabilities);
    SectionIffMatches(ArtifactId, NormalArtifact, SameArtifact, a.artifactTypes, b.artifactTypes);
    SectionIffMatches(EvidenceId, NormalEvidence, SameEvidence, a.evidenceTypes, b.evidenceTypes);
  }

  /** Writing a valid manifest in another order keeps it valid and keeps its canonical form, and
      nothing else does. */
  lemma CanonicalForm(a: Manifest, b: Manifest)
    requires Valid(a)
    ensures Canonical(a) == Canonical(b) <==> Reordered(a, b)
    ensures Reordered(a, b) ==> Valid(b)
  {
    hide Valid, Canonical, Reordered, Renders, IdsDistinct;
    CanonicalIffReordered(a, b);
    CanonicalRenders(a);
    CanonicalRenders(b);
    RenderingStaysValid(a, Canonical(a));
    RenderingStaysValid(b, Canonical(b));
  }

  /** Stage order is part of the canonical form: manifests that share it order every workflow's
      stages alike. */
  lemma StagesKeepTheirOrder(a: Manifest, b: Manifest, v: Workflow, w: Workflow)
    requires Valid(a) && Canonical(a) == Canonical(b) && v in a.workflows && w in b.workflows && v.id == w.id
    ensures v.stages == w.stages && Normalized(a).workflows != [] && NormalWorkflow(v).stages == v.stages
  {
    hide Valid, Canonical, SameRole, SameAgent, SamePolicy, SameCapability, SameArtifact, SameEvidence;
    CanonicalIffReordered(a, b);
    WorkflowsDistinct(a, b);
    var i :| 0 <= i < |a.workflows| && a.workflows[i] == v;
    assert HasMatch(SameWorkflow, v, b.workflows);
    var j :| 0 <= j < |b.workflows| && SameWorkflow(v, b.workflows[j]);
    var k :| 0 <= k < |b.workflows| && b.workflows[k] == w;
    assert WorkflowId(b.workflows[j]) == WorkflowId(b.workflows[k]);
  }

  lemma WorkflowsDistinct(a: Manifest, b: Manifest)
    requires Valid(a) && Canonical(a) == Canonical(b)
    ensures DistinctBy(WorkflowId, b.workflows)
  {
    hide Canonical, Renders, EntriesOk, DistinctBy;
    CanonicalRenders(a);
    CanonicalRenders(b);
  }

  // ----- validation, section by section

  /** Checks each entry in its written order and puts its normal form in its place. */
  method ValidateSection<T(!new)>(ok: T -> bool, normal: T -> T, section: seq<T>) returns (r: Option<seq<T>>)
    ensures r.Some? <==> forall x :: x in section ==> ok(x)
    ensures r.Some? ==> r.value == MapAll(normal, section)
  {
    var out: seq<T> := [];
    var i := 0;
    while i < |section|
      invariant 0 <= i <= |section| && |out| == i
      invariant forall k :: 0 <= k < i ==> ok(section[k]) && out[k] == normal(section[k])
    {
      if !ok(section[i]) {
        assert section[i] in section;
        return None;
      }
      out := out + [normal(section[i])];
      i := i + 1;
    }
    return Some(out);
  }

  /** The same for policies, which also keep track of the workflows already governed. */
  method ValidatePolicies(policies: seq<Policy>, d: Declared) returns (r: Option<seq<Policy>>)
    requires DistinctBy(PolicyId, policies)
    ensures r.Some? <==> (forall p :: p in policies ==> PolicyOk(p, d)) && OneGovernor(policies)
    ensures r.Some? ==> r.value == MapAll(NormalPolicy, policies)
  {
    hide PolicyOk, NormalPolicy;
    var governed: set<JsString> := {};
    var out: seq<Policy> := [];
    var i := 0;
    while i < |policies|
      invariant 0 <= i <= |policies| && |out| == i
      invariant forall k :: 0 <= k < i ==> PolicyOk(policies[k], d) && out[k] == NormalPolicy(policies[k])
      invariant forall w :: w in governed <==> exists k :: 0 <= k < i && policies[k].workflow == Some(w)
      invariant OneGovernor(policies[..i])
    {
      var policy := policies[i];
      assert policy in policies;
      assert policies[..i + 1] == policies[..i] + [policy];
      if !PolicyOk(policy, d) {
        return None;
      }
      if policy.workflow.Some? {
        if policy.workflow.value in governed {
          GovernedTwice(policies, i);
          return None;
        }
        governed := governed + {policy.workflow.value};
      }
      GovernorsGrow(policies, i, governed);
      out := out + [NormalPolicy(policy)];
      i := i + 1;
    }
    assert policies[..|policies|] == policies;
    return Some(out);
  }

  lemma GovernedTwice(policies: seq<Policy>, i: nat)
    requires DistinctBy(PolicyId, policies) && i < |policies| && policies[i].workflow.Some?
    requires exists k :: 0 <= k < i && policies[k].workflow == policies[i].workflow
    ensures !OneGovernor(policies)
  {
    var k :| 0 <= k < i && policies[k].workflow == policies[i].workflow;
    assert policies[k] in policies && policies[i] in policies && PolicyId(policies[k]) != PolicyId(policies[i]);
  }

  lemma GovernorsGrow(policies: seq<Policy>, i: nat, governed: set<JsString>)
    requires i < |policies| && OneGovernor(policies[..i])
    requires policies[i].workflow.Some? ==> !exists k :: 0 <= k < i && policies[k].workflow == policies[i].workflow
    ensures OneGovernor(policies[..i + 1])
  {
    forall p, q | p in policies[..i + 1] && q in policies[..i + 1] && p.workflow.Some? && p.workflow == q.workflow
      ensures p.id == q.id
    {
      var a :| 0 <= a <= i && policies[a] == p;
      var b :| 0 <= b <= i && policies[b] == q;
      if a < i && b < i { assert p == policies[..i][a] && q == policies[..i][b]; }
    }
  }

  /** Reads every section, then settles the references, one section after the other. */
  method ValidateDomainPackManifest(m: Manifest) returns (r: Option<Manifest>)
    ensures r.Some? <==> Valid(m)
    ensures r.Some? ==> r.value == Normalized(m)
  {
    hide RoleOk, AgentOk, WorkflowOk, PolicyOk, CapabilityOk, ArtifactOk, EvidenceOk, OneGovernor, MapAll, DistinctBy, DeclaredIn;
    if !IdsDistinct(m) {
      return None;
    }
    var d := DeclaredIn(m);
    var contributions := m;
    var roles := ValidateSection((x: Role) => RoleOk(x, d), NormalRole, m.roles);
    if roles.None? {
      return None;
    }
    contributions := contributions.(roles := roles.value);
    var agents := ValidateSection((x: Agent) => AgentOk(x, d), NormalAgent, m.agents);
    if agents.None? {
      return None;
    }
    contributions := contributions.(agents := agents.value);
    var workflows := ValidateSection((x: Workflow) => WorkflowOk(x, d), NormalWorkflow, m.workflows);
    if workflows.None? {
      return None;
    }
    contributions := contributions.(workflows := workflows.value);
    var policies := ValidatePolicies(m.policies, d);
    if policies.None? {
      return None;
    }
    contributions := contributions.(policies := policies.value);
    var artifactTypes := ValidateSection(ArtifactOk, NormalArtifact, m.artifactTypes);
    if artifactTypes.None? {
      return None;
    }
    var evidenceTypes := ValidateSection((x: EvidenceType) => EvidenceOk(x, d), NormalEvidence, m.evidenceTypes);
    if evidenceTypes.None? {
      return None;
    }
    var capabilities := ValidateSection(CapabilityOk, NormalCapability, m.capabilities);
    if capabilities.None? {
      return None;
    }
    if !HeaderOk(m.header) {
      return None;
    }
    return Some(contributions.(artifactTypes := artifactTypes.value, evidenceTypes := evidenceTypes.value,
                               capabilities := capabilities.value));
  }
}
