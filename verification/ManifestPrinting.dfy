/** What validation and the canonical form make of a manifest that can be printed can be printed. */
module ManifestPrinting {
  import opened Options
  import opened JsStrings
  import opened KeyedLists
  import opened Utf
  import opened Json
  import opened ManifestJson
  import opened ManifestRecords
  import opened ManifestDocuments
  import C = JsonCanonical
  import JB = JsonBytes
  import S = ManifestSchemas
  import M = Manifests

  /** What stands under the key after the change can be printed if what stood there before can. */
  ghost predicate Follows(key: JsString, before: Option<Json>, after: Option<Json>) {
    after.Some? ==>
      || (before.Some? && (Printable(before.value) ==> Printable(after.value)))
      || (WellFormed(key) && Printable(after.value))
  }

  lemma FieldPrints(keys: seq<JsString>, values: Values, i: nat)
    requires |keys| == |values| && Printable(Record(keys, values)) && i < |keys| && values[i].Some?
    ensures WellFormed(keys[i]) && Printable(values[i].value)
  {
    hide Present;
    PresentMembers(keys, values);
    var p := Present(keys, values);
    assert Member(keys[i], values[i].value) in p;
    var j :| 0 <= j < |p| && p[j] == Member(keys[i], values[i].value);
  }

  /** A record stays printable when each of its fields does. */
  lemma RecordStaysPrintable(keys: seq<JsString>, before: Values, after: Values)
    requires |keys| == |before| == |after| && S.Distinct(keys) && Printable(Record(keys, before))
    requires forall i :: 0 <= i < |keys| ==> Follows(keys[i], before[i], after[i])
    ensures Printable(Record(keys, after))
  {
    hide Present, WellFormed;
    var p := Present(keys, after);
    PresentMembers(keys, after);
    PresentDistinct(keys, after);
    forall j | 0 <= j < |p|
      ensures WellFormed(p[j].key) && Printable(p[j].value)
    {
      assert p[j] in p;
      var i :| 0 <= i < |keys| && keys[i] == p[j].key && after[i] == Some(p[j].value);
      assert Follows(keys[i], before[i], after[i]);
      if before[i].Some? { FieldPrints(keys, before, i); }
    }
  }

  lemma ListPrints<T(!new)>(f: T -> Json, s: seq<T>)
    ensures Printable(Listed(f, s)) <==> forall x :: x in s ==> Printable(f(x))
  {
    var items := MapAll(f, s);
    assert Printable(Listed(f, s)) <==> forall i :: 0 <= i < |items| ==> Printable(items[i]);
    if forall i :: 0 <= i < |items| ==> Printable(items[i]) {
      forall x | x in s
        ensures Printable(f(x))
      {
        var i :| 0 <= i < |s| && s[i] == x;
        assert items[i] == f(x);
      }
    }
    assert forall i :: 0 <= i < |s| ==> s[i] in s && items[i] == f(s[i]);
  }

  lemma SortedListPrints<T(!new)>(f: T -> Json, key: T -> JsString, s: seq<T>)
    requires Printable(Listed(f, s))
    ensures Printable(Listed(f, SortBy(key, s)))
  {
    ListPrints(f, s);
    ListPrints(f, SortBy(key, s));
    SortByProperties(key, s);
  }

  /** A list stays printable when each entry does in its normal form. */
  lemma NormalListPrints<T(!new)>(f: T -> Json, key: T -> JsString, normal: T -> T, s: seq<T>)
    requires Printable(Listed(f, s)) && forall x :: x in s && Printable(f(x)) ==> Printable(f(normal(x)))
    ensures Printable(Listed(f, SortBy(key, MapAll(normal, s))))
  {
    hide Listed;
    ListPrints(f, s);
    MappedMembers(normal, s);
    ListPrints(f, MapAll(normal, s));
    SortedListPrints(f, key, MapAll(normal, s));
  }

  lemma SortedNamesPrint(key: JsString, s: M.Names)
    ensures Follows(key, Names(s), Names(S.SortOption(s)))
  {
    hide Listed;
    if s.Some? && Printable(Names(s).value) { SortedListPrints(StrOf, Self, s.value); }
  }

  lemma Unchanged(key: JsString, w: Option<Json>)
    ensures Follows(key, w, w)
  {
  }

  // ----- schemas

  lemma SchemaFieldPrints(s: S.Schema, i: nat)
    requires Printable(SchemaJson(s)) && i < |SchemaKeys(s)| && SchemaValues(s)[i].Some?
    ensures Printable(SchemaValues(s)[i].value)
  {
    hide Record, SchemaValues;
    FieldPrints(SchemaKeys(s), SchemaValues(s), i);
  }

  /** The same kind of schema, and the second field printable again: the record is, too. */
  lemma SchemaRecordPrints(s: S.Schema, n: S.Schema)
    requires Printable(SchemaJson(s)) && TypeName(s) == TypeName(n) && SchemaKeys(s) == SchemaKeys(n) && |SchemaKeys(s)| >= 2
    requires forall i :: 1 <= i < |SchemaKeys(s)| ==> Follows(SchemaKeys(s)[i], SchemaValues(s)[i], SchemaValues(n)[i])
    ensures Printable(SchemaJson(n))
  {
    hide Record, Printable, WellFormed;
    SchemaKeysAreDistinct();
    Unchanged(TYPE, SchemaValues(s)[0]);
    RecordStaysPrintable(SchemaKeys(s), SchemaValues(s), SchemaValues(n));
  }

  lemma {:induction false} PropertiesPrint(p: seq<S.Property>, n: seq<S.Property>)
    requires Printable(Obj(PropertyMembers(p))) && |n| == |p|
    requires forall i :: 0 <= i < |p| ==> n[i].name == p[i].name && (Printable(SchemaJson(p[i].schema)) ==> Printable(SchemaJson(n[i].schema)))
    ensures Printable(Obj(PropertyMembers(SortBy(S.NameOf, n))))
  {
    hide SchemaJson, SortBy, DistinctBy, WellFormed;
    var sorted := SortBy(S.NameOf, n);
    var q := PropertyMembers(sorted);
    SortByProperties(S.NameOf, n);
    NamesLikeKeys(n, PropertyMembers(p));
    SortedStaysDistinct(S.NameOf, n);
    NamesLikeKeys(sorted, q);
    forall i | 0 <= i < |q|
      ensures WellFormed(q[i].key) && Printable(q[i].value)
    {
      assert sorted[i] in n;
      var j :| 0 <= j < |n| && n[j] == sorted[i];
      assert PropertyMembers(p)[j] == Member(p[j].name, SchemaJson(p[j].schema));
    }
  }

  lemma {:induction false} NormalSchemaPrints(s: S.Schema)
    requires Printable(SchemaJson(s))
    ensures Printable(SchemaJson(S.Normal(s)))
    decreases s
  {
    hide Printable, SchemaJson, Listed, PropertyMembers, SortBy;
    match s {
      case EnumSchema(values) =>
        SchemaFieldPrints(s, 1);
        SortedListPrints(StrOf, Self, values);
        SchemaRecordPrints(s, S.Normal(s));
      case ArraySchema(items, low, high) =>
        SchemaFieldPrints(s, 1);
        NormalSchemaPrints(items);
        Unchanged(MIN_ITEMS, Number(low));
        Unchanged(MAX_ITEMS, Number(high));
        SchemaRecordPrints(s, S.Normal(s));
      case ObjectSchema(properties, required) => NormalObjectPrints(s);
      case _ =>
    }
  }

  lemma NormalObjectPrints(s: S.Schema)
    requires s.ObjectSchema? && Printable(SchemaJson(s))
    ensures Printable(SchemaJson(S.Normal(s)))
    decreases s, 0
  {
    hide Printable, SchemaJson, Listed, PropertyMembers, SortBy, Names, S.Normal;
    var p := s.properties;
    S.NormalObject(p, s.required);
    SchemaFieldPrints(s, 1);
    assert SchemaValues(s)[1] == Some(Obj(PropertyMembers(p)));
    var n := S.NormalProperties(p);
    forall i | 0 <= i < |p|
      ensures n[i].name == p[i].name && (Printable(SchemaJson(p[i].schema)) ==> Printable(SchemaJson(n[i].schema)))
    {
      assert n[i] == S.Property(p[i].name, S.Normal(p[i].schema));
      if Printable(SchemaJson(p[i].schema)) { NormalSchemaPrints(p[i].schema); }
    }
    PropertiesPrint(p, n);
    SortedNamesPrint(OBJECT_KEYS[2], s.required);
    SchemaRecordPrints(s, S.Normal(s));
  }

  lemma NormalOptionalSchemaPrints(key: JsString, s: Option<S.Schema>)
    ensures Follows(key, OptionalSchema(s), OptionalSchema(M.NormalSchema(s)))
  {
    hide Printable, SchemaJson, S.Normal, WellFormed;
    if s.Some? && Printable(SchemaJson(s.value)) { NormalSchemaPrints(s.value); }
  }

  // ----- the records of a manifest

  lemma NormalRolePrints(x: M.Role)
    requires Printable(RoleJson(x))
    ensures Printable(RoleJson(M.NormalRole(x)))
  {
    hide Printable, Record, Names, Text, Follows, S.SortOption;
    var v, w := RoleValues(x), RoleValues(M.NormalRole(x));
    forall i | 0 <= i < 5 && i != 3 { Unchanged(ROLE_KEYS[i], v[i]); }
    SortedNamesPrint(ROLE_KEYS[3], x.capabilities);
    RecordStaysPrintable(ROLE_KEYS, v, w);
  }

  lemma NormalAgentPrints(x: M.Agent)
    requires Printable(AgentJson(x))
    ensures Printable(AgentJson(M.NormalAgent(x)))
  {
    hide Printable, Record, Names, Text, Follows, S.SortOption;
    var v, w := AgentValues(x), AgentValues(M.NormalAgent(x));
    forall i | 0 <= i < 4 { Unchanged(AGENT_KEYS[i], v[i]); }
    SortedNamesPrint(AGENT_KEYS[4], x.prompts);
    SortedNamesPrint(AGENT_KEYS[5], x.knowledge);
    SortedNamesPrint(AGENT_KEYS[6], x.capabilities);
    RecordStaysPrintable(AGENT_KEYS, v, w);
  }

  lemma NormalWorkflowPrints(x: M.Workflow)
    requires Printable(WorkflowJson(x))
    ensures Printable(WorkflowJson(M.NormalWorkflow(x)))
  {
    hide Printable, Record, Names, Text, Listed, Follows, S.SortOption;
    var v, w := WorkflowValues(x), WorkflowValues(M.NormalWorkflow(x));
    forall i | 0 <= i < 6 && i != 4 { Unchanged(WORKFLOW_KEYS[i], v[i]); }
    SortedNamesPrint(WORKFLOW_KEYS[4], x.additional);
    RecordStaysPrintable(WORKFLOW_KEYS, v, w);
  }

  lemma NormalClausePrints(x: M.Clause)
    requires Printable(ClauseJson(x))
    ensures Printable(ClauseJson(M.NormalClause(x)))
  {
    hide Printable, Record, Names, Flag, Follows, S.SortOption;
    var v, w := ClauseValues(x), ClauseValues(M.NormalClause(x));
    forall i | 0 <= i < 3 { Unchanged(CLAUSE_KEYS[i], v[i]); }
    SortedNamesPrint(CLAUSE_KEYS[3], x.differentFrom);
    SortedNamesPrint(CLAUSE_KEYS[4], x.operations);
    RecordStaysPrintable(CLAUSE_KEYS, v, w);
  }

  lemma NormalClausesPrint(key: JsString, stages: Option<seq<M.Clause>>)
    ensures Follows(key, OptionalList(ClauseJson, stages),
                    OptionalList(ClauseJson, if stages.None? then None else Some(M.NormalClauses(stages.value))))
  {
    hide Printable, Listed, ClauseJson, WellFormed, SortBy, M.NormalClause;
    if stages.Some? && Printable(Listed(ClauseJson, stages.value)) {
      forall c | Printable(ClauseJson(c)) { NormalClausePrints(c); }
      NormalListPrints(ClauseJson, M.ClauseStage, M.NormalClause, stages.value);
    }
  }

  lemma NormalPolicyPrints(x: M.Policy)
    requires Printable(PolicyJson(x))
    ensures Printable(PolicyJson(M.NormalPolicy(x)))
  {
    hide Printable, Record, Text, Enforced, OptionalList, Follows, M.NormalClauses;
    PolicyKeysAreDistinct();
    var v, w := PolicyValues(x), PolicyValues(M.NormalPolicy(x));
    forall i | 0 <= i < 5 { Unchanged(POLICY_KEYS[i], v[i]); }
    NormalClausesPrint(POLICY_KEYS[5], x.stages);
    RecordStaysPrintable(POLICY_KEYS, v, w);
  }

  lemma SortedOperationsPrint(key: JsString, operations: seq<M.Operation>)
    ensures Follows(key, Some(Listed(OperationJson, operations)), Some(Listed(OperationJson, SortBy(M.OperationName, operations))))
  {
    hide Printable, Listed, SortBy, WellFormed;
    if Printable(Listed(OperationJson, operations)) { SortedListPrints(OperationJson, M.OperationName, operations); }
  }

  /** The requirement that validation puts in the place of an absent one can be printed. */
  lemma RequirementPrints(before: Option<Json>, r: M.Requirement)
    ensures Follows(REQUIREMENT, before, Text(RequirementText(Some(r))))
  {
    JB.AsciiIsWellFormed(REQUIREMENT);
    JB.AsciiIsWellFormed(REQUIRED);
    JB.AsciiIsWellFormed(OPTIONAL);
  }

  lemma NormalCapabilityPrints(x: M.Capability)
    requires Printable(CapabilityJson(x))
    ensures Printable(CapabilityJson(M.NormalCapability(x)))
  {
    hide Printable, Record, Text, Listed, Follows, SortBy, RequirementText;
    CapabilityKeysAreDistinct();
    if x.operations.Some? {
      var v, w := CapabilityValues(x), CapabilityValues(M.NormalCapability(x));
      forall i | 0 <= i < 3 { Unchanged(CAPABILITY_KEYS[i], v[i]); }
      SortedOperationsPrint(OPERATIONS, x.operations.value);
      RequirementPrints(v[4], M.Effective(x.requirement));
      RecordStaysPrintable(CAPABILITY_KEYS, v, w);
    }
  }

  lemma NormalArtifactPrints(x: M.ArtifactType)
    requires Printable(ArtifactJson(x))
    ensures Printable(ArtifactJson(M.NormalArtifact(x)))
  {
    hide Printable, Record, Names, Text, Number, OptionalSchema, Follows, S.SortOption, M.NormalSchema;
    var v, w := ArtifactValues(x), ArtifactValues(M.NormalArtifact(x));
    forall i | 0 <= i < 5 && i != 3 { Unchanged(ARTIFACT_KEYS[i], v[i]); }
    SortedNamesPrint(ARTIFACT_KEYS[3], x.mediaTypes);
    NormalOptionalSchemaPrints(ARTIFACT_KEYS[5], x.schema);
    RecordStaysPrintable(ARTIFACT_KEYS, v, w);
  }

  lemma NormalEvidencePrints(x: M.EvidenceType)
    requires Printable(EvidenceJson(x))
    ensures Printable(EvidenceJson(M.NormalEvidence(x)))
  {
    hide Printable, Record, Text, OptionalSchema, Follows, M.NormalSchema;
    var v, w := EvidenceValues(x), EvidenceValues(M.NormalEvidence(x));
    forall i | 0 <= i < 4 { Unchanged(EVIDENCE_KEYS[i], v[i]); }
    NormalOptionalSchemaPrints(EVIDENCE_KEYS[4], x.schema);
    RecordStaysPrintable(EVIDENCE_KEYS, v, w);
  }

  // ----- the whole manifest

  lemma CanonicalPeoplePrint(m: M.Manifest)
    ensures var c := M.Canonical(m);
            && (Printable(Listed(RoleJson, m.roles)) ==> Printable(Listed(RoleJson, c.roles)))
            && (Printable(Listed(WorkflowJson, m.workflows)) ==> Printable(Listed(WorkflowJson, c.workflows)))
            && (Printable(Listed(AgentJson, m.agents)) ==> Printable(Listed(AgentJson, c.agents)))
  {
    hide Printable, Listed, SortBy, MapAll, AgentJson, RoleJson, WorkflowJson, M.NormalRole, M.NormalWorkflow, M.NormalAgent;
    forall x | Printable(RoleJson(x)) { NormalRolePrints(x); }
    if Printable(Listed(RoleJson, m.roles)) { NormalListPrints(RoleJson, M.RoleId, M.NormalRole, m.roles); }
    forall x | Printable(WorkflowJson(x)) { NormalWorkflowPrints(x); }
    if Printable(Listed(WorkflowJson, m.workflows)) { NormalListPrints(WorkflowJson, M.WorkflowId, M.NormalWorkflow, m.workflows); }
    forall x | Printable(AgentJson(x)) { NormalAgentPrints(x); }
    if Printable(Listed(AgentJson, m.agents)) { NormalListPrints(AgentJson, M.AgentId, M.NormalAgent, m.agents); }
  }

  lemma CanonicalTypesPrint(m: M.Manifest)
    ensures var c := M.Canonical(m);
            && (Printable(Listed(ArtifactJson, m.artifactTypes)) ==> Printable(Listed(ArtifactJson, c.artifactTypes)))
            && (Printable(Listed(EvidenceJson, m.evidenceTypes)) ==> Printable(Listed(EvidenceJson, c.evidenceTypes)))
  {
    hide Printable, Listed, SortBy, MapAll, ArtifactJson, EvidenceJson, M.NormalArtifact, M.NormalEvidence;
    forall x | Printable(ArtifactJson(x)) { NormalArtifactPrints(x); }
    if Printable(Listed(ArtifactJson, m.artifactTypes)) { NormalListPrints(ArtifactJson, M.ArtifactId, M.NormalArtifact, m.artifactTypes); }
    forall x | Printable(EvidenceJson(x)) { NormalEvidencePrints(x); }
    if Printable(Listed(EvidenceJson, m.evidenceTypes)) { NormalListPrints(EvidenceJson, M.EvidenceId, M.NormalEvidence, m.evidenceTypes); }
  }

  lemma CanonicalRulesPrint(m: M.Manifest)
    ensures var c := M.Canonical(m);
            && (Printable(Listed(PolicyJson, m.policies)) ==> Printable(Listed(PolicyJson, c.policies)))
            && (Printable(Listed(CapabilityJson, m.capabilities)) ==> Printable(Listed(CapabilityJson, c.capabilities)))
  {
    hide Printable, Listed, SortBy, MapAll, CapabilityJson, PolicyJson, M.NormalPolicy, M.NormalCapability;
    forall x | Printable(PolicyJson(x)) { NormalPolicyPrints(x); }
    if Printable(Listed(PolicyJson, m.policies)) { NormalListPrints(PolicyJson, M.PolicyId, M.NormalPolicy, m.policies); }
    forall x | Printable(CapabilityJson(x)) { NormalCapabilityPrints(x); }
    if Printable(Listed(CapabilityJson, m.capabilities)) { NormalListPrints(CapabilityJson, M.CapabilityId, M.NormalCapability, m.capabilities); }
  }

  lemma CanonicalPlainsPrint(m: M.Manifest)
    ensures var c := M.Canonical(m);
            && (Printable(Listed(PlainJson, m.taskTypes)) ==> Printable(Listed(PlainJson, c.taskTypes)))
            && (Printable(Listed(PlainJson, m.knowledge)) ==> Printable(Listed(PlainJson, c.knowledge)))
            && (Printable(Listed(PlainJson, m.prompts)) ==> Printable(Listed(PlainJson, c.prompts)))
  {
    hide Printable, Listed, SortBy, MapAll, PlainJson;
    if Printable(Listed(PlainJson, m.taskTypes)) { SortedListPrints(PlainJson, M.PlainId, m.taskTypes); }
    if Printable(Listed(PlainJson, m.knowledge)) { SortedListPrints(PlainJson, M.PlainId, m.knowledge); }
    if Printable(Listed(PlainJson, m.prompts)) { SortedListPrints(PlainJson, M.PlainId, m.prompts); }
  }

  lemma CanonicalSectionsPrint(m: M.Manifest)
    requires Printable(SectionsJson(m))
    ensures Printable(SectionsJson(M.Canonical(m)))
  {
    hide Printable, Record, Listed, M.Canonical, WellFormed;
    SectionKeysAreDistinct();
    CanonicalPeoplePrint(m);
    CanonicalTypesPrint(m);
    CanonicalRulesPrint(m);
    CanonicalPlainsPrint(m);
    RecordStaysPrintable(SECTION_KEYS, SectionValues(m), SectionValues(M.Canonical(m)));
  }

  /** If a manifest can be printed as it is written, it can be in canonical form. */
  lemma CanonicalPrints(m: M.Manifest)
    requires Printable(ManifestValue(m))
    ensures Printable(ManifestValue(M.Canonical(m)))
  {
    hide Printable, Record, Listed, SectionsJson, DependencyJson, CoreJson, MetadataJson, WellFormed, SortBy;
    DocumentKeysAreDistinct();
    var v, w := TopValues(m), TopValues(M.Canonical(m));
    FieldPrints(TOP_KEYS, v, 5);
    FieldPrints(TOP_KEYS, v, 6);
    SortedListPrints(DependencyJson, M.DependencyId, m.dependencies);
    CanonicalSectionsPrint(m);
    forall i | 0 <= i < |TOP_KEYS|
      ensures Follows(TOP_KEYS[i], v[i], w[i])
    {
      if i < 5 { assert w[i] == v[i]; }
    }
    RecordStaysPrintable(TOP_KEYS, v, w);
  }
}
