/** Every kind of record in a manifest: how it is written, how it is read, and that reading gives
    back what was written from any value like it, up to the written order inside data schemas. */
module ManifestRecords {
  import opened Options
  import opened JsStrings
  import opened Json
  import opened ManifestJson
  import S = ManifestSchemas
  import M = Manifests

  const ID := Js("id")
  const TITLE := Js("title")
  const DESCRIPTION := Js("description")
  const CAPABILITIES := Js("capabilities")
  const ROLE := Js("role")
  const PROMPTS := Js("prompts")
  const KNOWLEDGE := Js("knowledge")
  const STAGES := Js("stages")
  const OPERATIONS := Js("operations")
  const ENFORCEMENT := Js("enforcement")
  const REQUIREMENT := Js("requirement")
  const VERSION := Js("version")

  function TitlesOf(title: Option<Json>, description: Option<Json>): Option<M.Text> {
    var t :- TextOf(title);
    var d :- TextOf(description);
    Some(M.Text(t, d))
  }

  lemma TitlesRead(text: M.Text, title: Option<Json>, description: Option<Json>)
    requires AlikeOption(Text(text.title), title) && AlikeOption(Text(text.description), description)
    ensures TitlesOf(title, description) == Some(text)
  {
    hide AlikeOption, TextOf;
    TextReads(text.title, title);
    TextReads(text.description, description);
  }

  lemma TitlesWritten(title: Option<Json>, description: Option<Json>, text: M.Text)
    requires TitlesOf(title, description) == Some(text) && PrintableOption(title) && PrintableOption(description)
    ensures AlikeOption(Text(text.title), title) && AlikeOption(Text(text.description), description)
  {
    hide AlikeOption, TextOf;
    TextWritten(title, text.title);
    TextWritten(description, text.description);
  }

  // ----- task types, knowledge entries and prompts

  const PLAIN_KEYS := [ID, TITLE, DESCRIPTION]

  function PlainValues(x: M.Plain): Values { [Some(Str(x.id)), Text(x.text.title), Text(x.text.description)] }

  function PlainJson(x: M.Plain): Json { Record(PLAIN_KEYS, PlainValues(x)) }

  function ReadPlain(v: Json): Option<M.Plain> {
    var f :- Fields(v, PLAIN_KEYS);
    var id :- StringOf(f[0]);
    var text :- TitlesOf(f[1], f[2]);
    Some(M.Plain(id, text))
  }

  lemma PlainReads(x: M.Plain, w: Json)
    requires Alike(PlainJson(x), w)
    ensures ReadPlain(w) == Some(x)
  {
    hide Alike, AlikeOption, Record, Fields, Text, StringOf, TitlesOf;
    RecordReads(PLAIN_KEYS, PlainValues(x), w);
    var v, f := PlainValues(x), Fields(w, PLAIN_KEYS).value;
    assert AlikeOption(v[0], f[0]) && AlikeOption(v[1], f[1]) && AlikeOption(v[2], f[2]);
    StringReads(x.id, f[0]);
    TitlesRead(x.text, f[1], f[2]);
  }

  lemma PlainWritten(v: Json, x: M.Plain)
    requires ReadPlain(v) == Some(x) && Printable(v)
    ensures Alike(PlainJson(x), v)
  {
    hide Alike, AlikeOption, Record, Fields, Printable, PrintableOption, Text, StringOf, TitlesOf;
    FieldsPrint(v, PLAIN_KEYS);
    var f := Fields(v, PLAIN_KEYS).value;
    assert forall i :: 0 <= i < |f| ==> PrintableOption(f[i]);
    StringWritten(f[0], x.id);
    TitlesWritten(f[1], f[2], x.text);
    RecordWritten(PLAIN_KEYS, PlainValues(x), v);
  }

  lemma PlainDepth(x: M.Plain)
    ensures Depth(PlainJson(x)) <= 1
  {
    hide Record;
    RecordDepth(PLAIN_KEYS, PlainValues(x), 0);
  }

  // ----- roles

  const ROLE_KEYS := [ID, TITLE, DESCRIPTION, CAPABILITIES, Js("responsibilities")]

  function RoleValues(x: M.Role): Values {
    [Some(Str(x.id)), Text(x.text.title), Text(x.text.description), Names(x.capabilities), Names(x.responsibilities)]
  }

  function RoleJson(x: M.Role): Json { Record(ROLE_KEYS, RoleValues(x)) }

  function ReadRole(v: Json): Option<M.Role> {
    var f :- Fields(v, ROLE_KEYS);
    var id :- StringOf(f[0]);
    var text :- TitlesOf(f[1], f[2]);
    var capabilities :- NamesOf(f[3]);
    var responsibilities :- NamesOf(f[4]);
    Some(M.Role(id, text, capabilities, responsibilities))
  }

  lemma RoleReads(x: M.Role, w: Json)
    requires Alike(RoleJson(x), w)
    ensures ReadRole(w) == Some(x)
  {
    hide Alike, AlikeOption, Record, Fields, Text, Names, StringOf, TitlesOf, NamesOf;
    RecordReads(ROLE_KEYS, RoleValues(x), w);
    var v, f := RoleValues(x), Fields(w, ROLE_KEYS).value;
    assert AlikeOption(v[0], f[0]) && AlikeOption(v[1], f[1]) && AlikeOption(v[2], f[2]);
    assert AlikeOption(v[3], f[3]) && AlikeOption(v[4], f[4]);
    StringReads(x.id, f[0]);
    TitlesRead(x.text, f[1], f[2]);
    NamesRead(x.capabilities, f[3]);
    NamesRead(x.responsibilities, f[4]);
  }

  lemma RoleWritten(v: Json, x: M.Role)
    requires ReadRole(v) == Some(x) && Printable(v)
    ensures Alike(RoleJson(x), v)
  {
    hide Alike, AlikeOption, Record, Fields, Printable, PrintableOption, Text, Names, StringOf, TitlesOf, NamesOf;
    FieldsPrint(v, ROLE_KEYS);
    var f := Fields(v, ROLE_KEYS).value;
    assert forall i :: 0 <= i < |f| ==> PrintableOption(f[i]);
    StringWritten(f[0], x.id);
    TitlesWritten(f[1], f[2], x.text);
    NamesWritten(f[3], x.capabilities);
    NamesWritten(f[4], x.responsibilities);
    RecordWritten(ROLE_KEYS, RoleValues(x), v);
  }

  lemma RoleDepth(x: M.Role)
    ensures Depth(RoleJson(x)) <= 2
  {
    hide Record, Names;
    NamesDepth(x.capabilities);
    NamesDepth(x.responsibilities);
    RecordDepth(ROLE_KEYS, RoleValues(x), 1);
  }

  // ----- agents

  const AGENT_KEYS := [ID, TITLE, DESCRIPTION, ROLE, PROMPTS, KNOWLEDGE, CAPABILITIES]

  function AgentValues(x: M.Agent): Values {
    [Some(Str(x.id)), Text(x.text.title), Text(x.text.description), Text(x.role), Names(x.prompts), Names(x.knowledge),
     Names(x.capabilities)]
  }

  function AgentJson(x: M.Agent): Json { Record(AGENT_KEYS, AgentValues(x)) }

  function ReadAgent(v: Json): Option<M.Agent> {
    var f :- Fields(v, AGENT_KEYS);
    var id :- StringOf(f[0]);
    var text :- TitlesOf(f[1], f[2]);
    var role :- TextOf(f[3]);
    var prompts :- NamesOf(f[4]);
    var knowledge :- NamesOf(f[5]);
    var capabilities :- NamesOf(f[6]);
    Some(M.Agent(id, text, role, prompts, knowledge, capabilities))
  }

  lemma AgentReads(x: M.Agent, w: Json)
    requires Alike(AgentJson(x), w)
    ensures ReadAgent(w) == Some(x)
  {
    hide Alike, AlikeOption, Record, Fields, Text, Names, StringOf, TitlesOf, TextOf, NamesOf;
    RecordReads(AGENT_KEYS, AgentValues(x), w);
    var v, f := AgentValues(x), Fields(w, AGENT_KEYS).value;
    assert AlikeOption(v[0], f[0]) && AlikeOption(v[1], f[1]) && AlikeOption(v[2], f[2]) && AlikeOption(v[3], f[3]);
    assert AlikeOption(v[4], f[4]) && AlikeOption(v[5], f[5]) && AlikeOption(v[6], f[6]);
    StringReads(x.id, f[0]);
    TitlesRead(x.text, f[1], f[2]);
    TextReads(x.role, f[3]);
    NamesRead(x.prompts, f[4]);
    NamesRead(x.knowledge, f[5]);
    NamesRead(x.capabilities, f[6]);
  }

  lemma AgentWasRead(v: Json, x: M.Agent) returns (f: Values)
    requires ReadAgent(v) == Some(x)
    ensures Fields(v, AGENT_KEYS) == Some(f)
    ensures StringOf(f[0]) == Some(x.id) && TitlesOf(f[1], f[2]) == Some(x.text) && TextOf(f[3]) == Some(x.role)
    ensures NamesOf(f[4]) == Some(x.prompts) && NamesOf(f[5]) == Some(x.knowledge) && NamesOf(f[6]) == Some(x.capabilities)
  {
    hide Fields, StringOf, TitlesOf, TextOf, NamesOf;
    f := Fields(v, AGENT_KEYS).value;
  }

  lemma AgentWritten(v: Json, x: M.Agent)
    requires ReadAgent(v) == Some(x) && Printable(v)
    ensures Alike(AgentJson(x), v)
  {
    hide Alike, AlikeOption, Record, Fields, Printable, PrintableOption, ReadAgent, Text, Names, StringOf, TitlesOf, TextOf, NamesOf;
    var f := AgentWasRead(v, x);
    FieldsPrint(v, AGENT_KEYS);
    assert forall i :: 0 <= i < |f| ==> PrintableOption(f[i]);
    StringWritten(f[0], x.id);
    TitlesWritten(f[1], f[2], x.text);
    TextWritten(f[3], x.role);
    NamesWritten(f[4], x.prompts);
    NamesWritten(f[5], x.knowledge);
    NamesWritten(f[6], x.capabilities);
    RecordWritten(AGENT_KEYS, AgentValues(x), v);
  }

  lemma AgentDepth(x: M.Agent)
    ensures Depth(AgentJson(x)) <= 2
  {
    hide Record, Names;
    NamesDepth(x.prompts);
    NamesDepth(x.knowledge);
    NamesDepth(x.capabilities);
    RecordDepth(AGENT_KEYS, AgentValues(x), 1);
  }

  // ----- workflows and their stages

  const STAGE_KEYS := [ID, ROLE, TITLE, Js("objective"), Js("checks")]

  function StageValues(x: M.Stage): Values {
    [Some(Str(x.id)), Some(Str(x.role)), Text(x.text.title), Text(x.text.description), Names(x.checks)]
  }

  function StageJson(x: M.Stage): Json { Record(STAGE_KEYS, StageValues(x)) }

  function ReadStage(v: Json): Option<M.Stage> {
    var f :- Fields(v, STAGE_KEYS);
    var id :- StringOf(f[0]);
    var role :- StringOf(f[1]);
    var text :- TitlesOf(f[2], f[3]);
    var checks :- NamesOf(f[4]);
    Some(M.Stage(id, role, text, checks))
  }

  lemma StageReads(x: M.Stage, w: Json)
    requires Alike(StageJson(x), w)
    ensures ReadStage(w) == Some(x)
  {
    hide Alike, AlikeOption, Record, Fields, Text, Names, StringOf, TitlesOf, NamesOf;
    RecordReads(STAGE_KEYS, StageValues(x), w);
    var v, f := StageValues(x), Fields(w, STAGE_KEYS).value;
    assert AlikeOption(v[0], f[0]) && AlikeOption(v[1], f[1]) && AlikeOption(v[2], f[2]);
    assert AlikeOption(v[3], f[3]) && AlikeOption(v[4], f[4]);
    StringReads(x.id, f[0]);
    StringReads(x.role, f[1]);
    TitlesRead(x.text, f[2], f[3]);
    NamesRead(x.checks, f[4]);
  }

  lemma StageWritten(v: Json, x: M.Stage)
    requires ReadStage(v) == Some(x) && Printable(v)
    ensures Alike(StageJson(x), v)
  {
    hide Alike, AlikeOption, Record, Fields, Printable, PrintableOption, Text, Names, StringOf, TitlesOf, NamesOf;
    FieldsPrint(v, STAGE_KEYS);
    var f := Fields(v, STAGE_KEYS).value;
    assert forall i :: 0 <= i < |f| ==> PrintableOption(f[i]);
    StringWritten(f[0], x.id);
    StringWritten(f[1], x.role);
    TitlesWritten(f[2], f[3], x.text);
    NamesWritten(f[4], x.checks);
    RecordWritten(STAGE_KEYS, StageValues(x), v);
  }

  lemma StageDepth(x: M.Stage)
    ensures Depth(StageJson(x)) <= 2
  {
    hide Record, Names;
    NamesDepth(x.checks);
    RecordDepth(STAGE_KEYS, StageValues(x), 1);
  }

  const WORKFLOW_KEYS := [ID, TITLE, DESCRIPTION, Js("taskType"), Js("additionalTaskTypes"), STAGES]

  function WorkflowValues(x: M.Workflow): Values {
    [Some(Str(x.id)), Text(x.text.title), Text(x.text.description), Some(Str(x.taskType)), Names(x.additional),
     Some(Listed(StageJson, x.stages))]
  }

  function WorkflowJson(x: M.Workflow): Json { Record(WORKFLOW_KEYS, WorkflowValues(x)) }

  function ReadWorkflow(v: Json): Option<M.Workflow> {
    var f :- Fields(v, WORKFLOW_KEYS);
    var id :- StringOf(f[0]);
    var text :- TitlesOf(f[1], f[2]);
    var taskType :- StringOf(f[3]);
    var additional :- NamesOf(f[4]);
    var stages :- ListOf(ReadStage, f[5]);
    Some(M.Workflow(id, text, taskType, additional, stages))
  }

  lemma WorkflowReads(x: M.Workflow, w: Json)
    requires Alike(WorkflowJson(x), w)
    ensures ReadWorkflow(w) == Some(x)
  {
    hide Alike, AlikeOption, Record, Fields, Text, Names, Listed, StageJson, StringOf, TitlesOf, NamesOf, ListOf, ReadStage;
    RecordReads(WORKFLOW_KEYS, WorkflowValues(x), w);
    var v, f := WorkflowValues(x), Fields(w, WORKFLOW_KEYS).value;
    assert AlikeOption(v[0], f[0]) && AlikeOption(v[1], f[1]) && AlikeOption(v[2], f[2]);
    assert AlikeOption(v[3], f[3]) && AlikeOption(v[4], f[4]) && AlikeOption(v[5], f[5]);
    StringReads(x.id, f[0]);
    TitlesRead(x.text, f[1], f[2]);
    StringReads(x.taskType, f[3]);
    NamesRead(x.additional, f[4]);
    forall s, u | Alike(StageJson(s), u) { StageReads(s, u); }
    ListReads(StageJson, ReadStage, x.stages, f[5]);
  }

  lemma WorkflowWasRead(v: Json, x: M.Workflow) returns (f: Values)
    requires ReadWorkflow(v) == Some(x)
    ensures Fields(v, WORKFLOW_KEYS) == Some(f)
    ensures StringOf(f[0]) == Some(x.id) && TitlesOf(f[1], f[2]) == Some(x.text) && StringOf(f[3]) == Some(x.taskType)
    ensures NamesOf(f[4]) == Some(x.additional) && ListOf(ReadStage, f[5]) == Some(x.stages)
  {
    hide Fields, StringOf, TitlesOf, NamesOf, ListOf, ReadStage;
    f := Fields(v, WORKFLOW_KEYS).value;
  }

  lemma WorkflowWritten(v: Json, x: M.Workflow)
    requires ReadWorkflow(v) == Some(x) && Printable(v)
    ensures Alike(WorkflowJson(x), v)
  {
    hide Alike, AlikeOption, Record, Fields, Printable, PrintableOption, ReadWorkflow, Text, Names, Listed, StageJson, StringOf, TitlesOf, NamesOf, ReadStage;
    var f := WorkflowWasRead(v, x);
    FieldsPrint(v, WORKFLOW_KEYS);
    assert forall i :: 0 <= i < |f| ==> PrintableOption(f[i]);
    StringWritten(f[0], x.id);
    TitlesWritten(f[1], f[2], x.text);
    StringWritten(f[3], x.taskType);
    NamesWritten(f[4], x.additional);
    forall u, s | Printable(u) && ReadStage(u) == Some(s) { StageWritten(u, s); }
    RequiredListWritten(StageJson, ReadStage, f[5], x.stages);
    RecordWritten(WORKFLOW_KEYS, WorkflowValues(x), v);
  }

  lemma WorkflowDepth(x: M.Workflow)
    ensures Depth(WorkflowJson(x)) <= 4
  {
    hide Record, Names, Listed, StageJson;
    NamesDepth(x.additional);
    forall s { StageDepth(s); }
    ListDepth(StageJson, x.stages, 2);
    RecordDepth(WORKFLOW_KEYS, WorkflowValues(x), 3);
  }

  // ----- policies and their clauses

  const CLAUSE_KEYS := [Js("stage"), Js("requiresApproval"), Js("requiresIndependentApproval"), Js("requiresDifferentAgentFrom"), OPERATIONS]

  function ClauseValues(x: M.Clause): Values {
    [Some(Str(x.stage)), Flag(x.approval), Flag(x.independent), Names(x.differentFrom), Names(x.operations)]
  }

  function ClauseJson(x: M.Clause): Json { Record(CLAUSE_KEYS, ClauseValues(x)) }

  function ReadClause(v: Json): Option<M.Clause> {
    var f :- Fields(v, CLAUSE_KEYS);
    var stage :- StringOf(f[0]);
    var approval :- FlagOf(f[1]);
    var independent :- FlagOf(f[2]);
    var differentFrom :- NamesOf(f[3]);
    var operations :- NamesOf(f[4]);
    Some(M.Clause(stage, approval, independent, differentFrom, operations))
  }

  lemma ClauseReads(x: M.Clause, w: Json)
    requires Alike(ClauseJson(x), w)
    ensures ReadClause(w) == Some(x)
  {
    hide Alike, AlikeOption, Record, Fields, Flag, Names, StringOf, FlagOf, NamesOf;
    RecordReads(CLAUSE_KEYS, ClauseValues(x), w);
    var v, f := ClauseValues(x), Fields(w, CLAUSE_KEYS).value;
    assert AlikeOption(v[0], f[0]) && AlikeOption(v[1], f[1]) && AlikeOption(v[2], f[2]);
    assert AlikeOption(v[3], f[3]) && AlikeOption(v[4], f[4]);
    StringReads(x.stage, f[0]);
    FlagReads(x.approval, f[1]);
    FlagReads(x.independent, f[2]);
    NamesRead(x.differentFrom, f[3]);
    NamesRead(x.operations, f[4]);
  }

  lemma ClauseWasRead(v: Json, x: M.Clause) returns (f: Values)
    requires ReadClause(v) == Some(x)
    ensures Fields(v, CLAUSE_KEYS) == Some(f)
    ensures StringOf(f[0]) == Some(x.stage) && FlagOf(f[1]) == Some(x.approval) && FlagOf(f[2]) == Some(x.independent)
    ensures NamesOf(f[3]) == Some(x.differentFrom) && NamesOf(f[4]) == Some(x.operations)
  {
    hide Fields, StringOf, FlagOf, NamesOf;
    f := Fields(v, CLAUSE_KEYS).value;
  }

  lemma ClauseWritten(v: Json, x: M.Clause)
    requires ReadClause(v) == Some(x) && Printable(v)
    ensures Alike(ClauseJson(x), v)
  {
    hide Alike, AlikeOption, Record, Fields, Printable, PrintableOption, ReadClause, Flag, Names, StringOf, FlagOf, NamesOf;
    var f := ClauseWasRead(v, x);
    FieldsPrint(v, CLAUSE_KEYS);
    assert forall i :: 0 <= i < |f| ==> PrintableOption(f[i]);
    StringWritten(f[0], x.stage);
    FlagWritten(f[1], x.approval);
    FlagWritten(f[2], x.independent);
    NamesWritten(f[3], x.differentFrom);
    NamesWritten(f[4], x.operations);
    RecordWritten(CLAUSE_KEYS, ClauseValues(x), v);
  }

  lemma ClauseDepth(x: M.Clause)
    ensures Depth(ClauseJson(x)) <= 2
  {
    hide Record, Names;
    NamesDepth(x.differentFrom);
    NamesDepth(x.operations);
    RecordDepth(CLAUSE_KEYS, ClauseValues(x), 1);
  }

  const POLICY_KEYS := [ID, TITLE, DESCRIPTION, Js("workflow"), ENFORCEMENT, STAGES]

  const ENFORCED := Js("enforced")

  function Enforced(on: bool): Option<Json> { if on then Some(Str(ENFORCED)) else None }

  /** Guidance is the absent field; no other word is taken. */
  function EnforcedOf(w: Option<Json>): Option<bool> {
    if w.None? then Some(false) else if w.value == Str(ENFORCED) then Some(true) else None
  }

  lemma EnforcedReads(on: bool, w: Option<Json>)
    requires AlikeOption(Enforced(on), w)
    ensures EnforcedOf(w) == Some(on)
  {
  }

  lemma EnforcedWritten(w: Option<Json>, on: bool)
    requires EnforcedOf(w) == Some(on) && PrintableOption(w)
    ensures AlikeOption(Enforced(on), w)
  {
  }

  function PolicyValues(x: M.Policy): Values {
    [Some(Str(x.id)), Text(x.text.title), Text(x.text.description), Text(x.workflow), Enforced(x.enforced),
     OptionalList(ClauseJson, x.stages)]
  }

  function PolicyJson(x: M.Policy): Json { Record(POLICY_KEYS, PolicyValues(x)) }

  lemma PolicyKeysAreDistinct()
    ensures S.Distinct(POLICY_KEYS)
  {
    assert DESCRIPTION[0] == 'd' as int && ENFORCEMENT[0] == 'e' as int;
  }

  function ReadPolicy(v: Json): Option<M.Policy> {
    var f :- Fields(v, POLICY_KEYS);
    var id :- StringOf(f[0]);
    var text :- TitlesOf(f[1], f[2]);
    var workflow :- TextOf(f[3]);
    var enforced :- EnforcedOf(f[4]);
    var stages :- OptionalListOf(ReadClause, f[5]);
    Some(M.Policy(id, text, workflow, enforced, stages))
  }

  lemma PolicyReads(x: M.Policy, w: Json)
    requires Alike(PolicyJson(x), w)
    ensures ReadPolicy(w) == Some(x)
  {
    hide Alike, AlikeOption, Record, Fields, Text, Enforced, OptionalList, ClauseJson, StringOf, TitlesOf, TextOf, EnforcedOf,
         OptionalListOf, ReadClause;
    PolicyKeysAreDistinct();
    RecordReads(POLICY_KEYS, PolicyValues(x), w);
    var v, f := PolicyValues(x), Fields(w, POLICY_KEYS).value;
    assert AlikeOption(v[0], f[0]) && AlikeOption(v[1], f[1]) && AlikeOption(v[2], f[2]);
    assert AlikeOption(v[3], f[3]) && AlikeOption(v[4], f[4]) && AlikeOption(v[5], f[5]);
    StringReads(x.id, f[0]);
    TitlesRead(x.text, f[1], f[2]);
    TextReads(x.workflow, f[3]);
    EnforcedReads(x.enforced, f[4]);
    forall c, u | Alike(ClauseJson(c), u) { ClauseReads(c, u); }
    OptionalListReads(ClauseJson, ReadClause, x.stages, f[5]);
  }

  lemma PolicyWasRead(v: Json, x: M.Policy) returns (f: Values)
    requires ReadPolicy(v) == Some(x)
    ensures Fields(v, POLICY_KEYS) == Some(f)
    ensures StringOf(f[0]) == Some(x.id) && TitlesOf(f[1], f[2]) == Some(x.text) && TextOf(f[3]) == Some(x.workflow)
    ensures EnforcedOf(f[4]) == Some(x.enforced) && OptionalListOf(ReadClause, f[5]) == Some(x.stages)
  {
    hide Fields, StringOf, TitlesOf, TextOf, EnforcedOf, OptionalListOf, ReadClause;
    f := Fields(v, POLICY_KEYS).value;
  }

  lemma PolicyWritten(v: Json, x: M.Policy)
    requires ReadPolicy(v) == Some(x) && Printable(v)
    ensures Alike(PolicyJson(x), v)
  {
    hide Alike, AlikeOption, Record, Fields, Printable, PrintableOption, ReadPolicy, Text, Enforced, OptionalList, ClauseJson, StringOf, TitlesOf, TextOf, EnforcedOf, ReadClause;
    PolicyKeysAreDistinct();
    var f := PolicyWasRead(v, x);
    FieldsPrint(v, POLICY_KEYS);
    assert forall i :: 0 <= i < |f| ==> PrintableOption(f[i]);
    StringWritten(f[0], x.id);
    TitlesWritten(f[1], f[2], x.text);
    TextWritten(f[3], x.workflow);
    EnforcedWritten(f[4], x.enforced);
    forall u, c | Printable(u) && ReadClause(u) == Some(c) { ClauseWritten(u, c); }
    OptionalListWritten(ClauseJson, ReadClause, f[5], x.stages);
    RecordWritten(POLICY_KEYS, PolicyValues(x), v);
  }

  lemma PolicyDepth(x: M.Policy)
    ensures Depth(PolicyJson(x)) <= 4
  {
    hide Record, Listed, ClauseJson;
    forall c { ClauseDepth(c); }
    if x.stages.Some? { ListDepth(ClauseJson, x.stages.value, 2); }
    RecordDepth(POLICY_KEYS, PolicyValues(x), 3);
  }

  // ----- capabilities and their operations

  const OPERATION_KEYS := [Js("operation"), Js("mode")]

  const MUTATION := Js("mutation")
  const READ := Js("read")

  function Mode(mutation: bool): Option<Json> { Some(Str(if mutation then MUTATION else READ)) }

  function ModeOf(w: Option<Json>): Option<bool> {
    var s :- StringOf(w);
    if s == MUTATION then Some(true) else if s == READ then Some(false) else None
  }

  lemma ModeReads(mutation: bool, w: Option<Json>)
    requires AlikeOption(Mode(mutation), w)
    ensures ModeOf(w) == Some(mutation)
  {
    StringReads(if mutation then MUTATION else READ, w);
  }

  lemma ModeWritten(w: Option<Json>, mutation: bool)
    requires ModeOf(w) == Some(mutation) && PrintableOption(w)
    ensures AlikeOption(Mode(mutation), w)
  {
    StringWritten(w, if mutation then MUTATION else READ);
  }

  function OperationValues(x: M.Operation): Values { [Some(Str(x.name)), Mode(x.mutation)] }

  function OperationJson(x: M.Operation): Json { Record(OPERATION_KEYS, OperationValues(x)) }

  function ReadOperation(v: Json): Option<M.Operation> {
    var f :- Fields(v, OPERATION_KEYS);
    var name :- StringOf(f[0]);
    var mutation :- ModeOf(f[1]);
    Some(M.Operation(name, mutation))
  }

  lemma OperationReads(x: M.Operation, w: Json)
    requires Alike(OperationJson(x), w)
    ensures ReadOperation(w) == Some(x)
  {
    hide Alike, AlikeOption, Record, Fields, Mode, StringOf, ModeOf;
    RecordReads(OPERATION_KEYS, OperationValues(x), w);
    var v, f := OperationValues(x), Fields(w, OPERATION_KEYS).value;
    assert AlikeOption(v[0], f[0]) && AlikeOption(v[1], f[1]);
    StringReads(x.name, f[0]);
    ModeReads(x.mutation, f[1]);
  }

  lemma OperationWritten(v: Json, x: M.Operation)
    requires ReadOperation(v) == Some(x) && Printable(v)
    ensures Alike(OperationJson(x), v)
  {
    hide Alike, AlikeOption, Record, Fields, Printable, PrintableOption, Mode, StringOf, ModeOf;
    FieldsPrint(v, OPERATION_KEYS);
    var f := Fields(v, OPERATION_KEYS).value;
    assert forall i :: 0 <= i < |f| ==> PrintableOption(f[i]);
    StringWritten(f[0], x.name);
    ModeWritten(f[1], x.mutation);
    RecordWritten(OPERATION_KEYS, OperationValues(x), v);
  }

  lemma OperationDepth(x: M.Operation)
    ensures Depth(OperationJson(x)) <= 1
  {
    hide Record;
    RecordDepth(OPERATION_KEYS, OperationValues(x), 0);
  }

  const CAPABILITY_KEYS := [ID, TITLE, DESCRIPTION, OPERATIONS, REQUIREMENT]

  const REQUIRED := Js("required")
  const OPTIONAL := Js("optional")

  function RequirementText(r: Option<M.Requirement>): Option<JsString> {
    match r
    case None => None
    case Some(Required) => Some(REQUIRED)
    case Some(Optional) => Some(OPTIONAL)
  }

  function RequirementOf(w: Option<Json>): Option<Option<M.Requirement>> {
    var s :- TextOf(w);
    if s == None then Some(None)
    else if s == Some(REQUIRED) then Some(Some(M.Required))
    else if s == Some(OPTIONAL) then Some(Some(M.Optional))
    else None
  }

  lemma RequirementReads(r: Option<M.Requirement>, w: Option<Json>)
    requires AlikeOption(Text(RequirementText(r)), w)
    ensures RequirementOf(w) == Some(r)
  {
    assert REQUIRED[0] == 'r' as int && OPTIONAL[0] == 'o' as int;
    TextReads(RequirementText(r), w);
  }

  lemma RequirementWritten(w: Option<Json>, r: Option<M.Requirement>)
    requires RequirementOf(w) == Some(r) && PrintableOption(w)
    ensures AlikeOption(Text(RequirementText(r)), w)
  {
    TextWritten(w, RequirementText(r));
  }

  function CapabilityValues(x: M.Capability): Values {
    [Some(Str(x.id)), Text(x.text.title), Text(x.text.description), OptionalList(OperationJson, x.operations),
     Text(RequirementText(x.requirement))]
  }

  function CapabilityJson(x: M.Capability): Json { Record(CAPABILITY_KEYS, CapabilityValues(x)) }

  lemma CapabilityKeysAreDistinct()
    ensures S.Distinct(CAPABILITY_KEYS)
  {
    assert DESCRIPTION[0] == 'd' as int && REQUIREMENT[0] == 'r' as int;
  }

  function ReadCapability(v: Json): Option<M.Capability> {
    var f :- Fields(v, CAPABILITY_KEYS);
    var id :- StringOf(f[0]);
    var text :- TitlesOf(f[1], f[2]);
    var operations :- OptionalListOf(ReadOperation, f[3]);
    var requirement :- RequirementOf(f[4]);
    Some(M.Capability(id, text, operations, requirement))
  }

  lemma CapabilityReads(x: M.Capability, w: Json)
    requires Alike(CapabilityJson(x), w)
    ensures ReadCapability(w) == Some(x)
  {
    hide Alike, AlikeOption, Record, Fields, Text, OptionalList, OperationJson, RequirementText, StringOf, TitlesOf,
         OptionalListOf, RequirementOf, ReadOperation;
    CapabilityKeysAreDistinct();
    RecordReads(CAPABILITY_KEYS, CapabilityValues(x), w);
    var v, f := CapabilityValues(x), Fields(w, CAPABILITY_KEYS).value;
    assert AlikeOption(v[0], f[0]) && AlikeOption(v[1], f[1]) && AlikeOption(v[2], f[2]);
    assert AlikeOption(v[3], f[3]) && AlikeOption(v[4], f[4]);
    StringReads(x.id, f[0]);
    TitlesRead(x.text, f[1], f[2]);
    forall o, u | Alike(OperationJson(o), u) { OperationReads(o, u); }
    OptionalListReads(OperationJson, ReadOperation, x.operations, f[3]);
    RequirementReads(x.requirement, f[4]);
  }

  lemma CapabilityWritten(v: Json, x: M.Capability)
    requires ReadCapability(v) == Some(x) && Printable(v)
    ensures Alike(CapabilityJson(x), v)
  {
    hide Alike, AlikeOption, Record, Fields, Printable, PrintableOption, Text, OptionalList, OperationJson, RequirementText, StringOf, TitlesOf, RequirementOf, ReadOperation;
    CapabilityKeysAreDistinct();
    FieldsPrint(v, CAPABILITY_KEYS);
    var f := Fields(v, CAPABILITY_KEYS).value;
    assert forall i :: 0 <= i < |f| ==> PrintableOption(f[i]);
    StringWritten(f[0], x.id);
    TitlesWritten(f[1], f[2], x.text);
    forall u, o | Printable(u) && ReadOperation(u) == Some(o) { OperationWritten(u, o); }
    OptionalListWritten(OperationJson, ReadOperation, f[3], x.operations);
    RequirementWritten(f[4], x.requirement);
    RecordWritten(CAPABILITY_KEYS, CapabilityValues(x), v);
  }

  lemma CapabilityDepth(x: M.Capability)
    ensures Depth(CapabilityJson(x)) <= 3
  {
    hide Record, Listed, OperationJson;
    forall o { OperationDepth(o); }
    if x.operations.Some? { ListDepth(OperationJson, x.operations.value, 1); }
    RecordDepth(CAPABILITY_KEYS, CapabilityValues(x), 2);
  }

  // ----- artifact and evidence types

  function OptionalSchema(s: Option<S.Schema>): Option<Json> { if s.None? then None else Some(SchemaJson(s.value)) }

  function SchemaOf(w: Option<Json>): Option<Option<S.Schema>> {
    if w.None? then Some(None) else
    var s :- ReadSchema(w.value);
    Some(Some(s))
  }

  lemma OptionalSchemaReads(s: Option<S.Schema>, w: Option<Json>)
    requires AlikeOption(OptionalSchema(s), w)
    ensures SchemaOf(w).Some? && M.SameSchema(s, SchemaOf(w).value)
  {
    hide SchemaJson, Alike, ReadSchema;
    if s.Some? { SchemaReads(s.value, w.value); }
  }

  lemma OptionalSchemaWritten(w: Option<Json>, s: Option<S.Schema>)
    requires SchemaOf(w) == Some(s) && PrintableOption(w)
    ensures AlikeOption(OptionalSchema(s), w)
  {
    hide SchemaJson, Alike, ReadSchema;
    if s.Some? { SchemaWritten(w.value, s.value); }
  }

  lemma OptionalSchemaDepth(s: Option<S.Schema>)
    requires M.SchemaOk(s)
    ensures Shallow(OptionalSchema(s), 8)
  {
    hide SchemaJson;
    if s.Some? { SchemaDepth(s.value, 1); }
  }

  const ARTIFACT_KEYS := [ID, TITLE, DESCRIPTION, Js("mediaTypes"), Js("maximumBytes"), Js("contentSchema")]

  function Size(n: Option<nat>): Option<int> { if n.None? then None else Some(n.value) }

  function SizeOf(w: Option<Json>): Option<Option<nat>> {
    var n :- NumberOf(w);
    if n.None? then Some(None) else if n.value < 0 then None else Some(Some(n.value))
  }

  lemma SizeReads(n: Option<nat>, w: Option<Json>)
    requires AlikeOption(Number(Size(n)), w)
    ensures SizeOf(w) == Some(n)
  {
    NumberReads(Size(n), w);
  }

  lemma SizeWritten(w: Option<Json>, n: Option<nat>)
    requires SizeOf(w) == Some(n) && PrintableOption(w)
    ensures AlikeOption(Number(Size(n)), w)
  {
    NumberWritten(w, Size(n));
  }

  function ArtifactValues(x: M.ArtifactType): Values {
    [Some(Str(x.id)), Text(x.text.title), Text(x.text.description), Names(x.mediaTypes), Number(Size(x.maximumBytes)),
     OptionalSchema(x.schema)]
  }

  function ArtifactJson(x: M.ArtifactType): Json { Record(ARTIFACT_KEYS, ArtifactValues(x)) }

  function ReadArtifact(v: Json): Option<M.ArtifactType> {
    var f :- Fields(v, ARTIFACT_KEYS);
    var id :- StringOf(f[0]);
    var text :- TitlesOf(f[1], f[2]);
    var mediaTypes :- NamesOf(f[3]);
    var maximumBytes :- SizeOf(f[4]);
    var schema :- SchemaOf(f[5]);
    Some(M.ArtifactType(id, text, mediaTypes, maximumBytes, schema))
  }

  lemma ArtifactReads(x: M.ArtifactType, w: Json)
    requires Alike(ArtifactJson(x), w)
    ensures ReadArtifact(w).Some? && M.SameArtifact(x, ReadArtifact(w).value)
  {
    hide Alike, AlikeOption, Record, Fields, Text, Names, Number, OptionalSchema, M.SameSchema, StringOf, TitlesOf, NamesOf,
         SizeOf, SchemaOf;
    RecordReads(ARTIFACT_KEYS, ArtifactValues(x), w);
    var v, f := ArtifactValues(x), Fields(w, ARTIFACT_KEYS).value;
    assert AlikeOption(v[0], f[0]) && AlikeOption(v[1], f[1]) && AlikeOption(v[2], f[2]);
    assert AlikeOption(v[3], f[3]) && AlikeOption(v[4], f[4]) && AlikeOption(v[5], f[5]);
    StringReads(x.id, f[0]);
    TitlesRead(x.text, f[1], f[2]);
    NamesRead(x.mediaTypes, f[3]);
    SizeReads(x.maximumBytes, f[4]);
    OptionalSchemaReads(x.schema, f[5]);
  }

  lemma ArtifactWasRead(v: Json, x: M.ArtifactType) returns (f: Values)
    requires ReadArtifact(v) == Some(x)
    ensures Fields(v, ARTIFACT_KEYS) == Some(f)
    ensures StringOf(f[0]) == Some(x.id) && TitlesOf(f[1], f[2]) == Some(x.text) && NamesOf(f[3]) == Some(x.mediaTypes)
    ensures SizeOf(f[4]) == Some(x.maximumBytes) && SchemaOf(f[5]) == Some(x.schema)
  {
    hide Fields, StringOf, TitlesOf, NamesOf, SizeOf, SchemaOf;
    f := Fields(v, ARTIFACT_KEYS).value;
  }

  lemma ArtifactWritten(v: Json, x: M.ArtifactType)
    requires ReadArtifact(v) == Some(x) && Printable(v)
    ensures Alike(ArtifactJson(x), v)
  {
    hide Alike, AlikeOption, Record, Fields, Printable, PrintableOption, ReadArtifact, Text, Names, Number, OptionalSchema, StringOf, TitlesOf, NamesOf, SizeOf, SchemaOf;
    var f := ArtifactWasRead(v, x);
    FieldsPrint(v, ARTIFACT_KEYS);
    assert forall i :: 0 <= i < |f| ==> PrintableOption(f[i]);
    StringWritten(f[0], x.id);
    TitlesWritten(f[1], f[2], x.text);
    NamesWritten(f[3], x.mediaTypes);
    SizeWritten(f[4], x.maximumBytes);
    OptionalSchemaWritten(f[5], x.schema);
    RecordWritten(ARTIFACT_KEYS, ArtifactValues(x), v);
  }

  lemma ArtifactDepth(x: M.ArtifactType)
    requires M.SchemaOk(x.schema)
    ensures Depth(ArtifactJson(x)) <= 9
  {
    hide Record, Names, OptionalSchema, M.SchemaOk;
    NamesDepth(x.mediaTypes);
    OptionalSchemaDepth(x.schema);
    RecordDepth(ARTIFACT_KEYS, ArtifactValues(x), 8);
  }

  const EVIDENCE_KEYS := [ID, TITLE, DESCRIPTION, Js("subject"), Js("payloadSchema")]

  function EvidenceValues(x: M.EvidenceType): Values {
    [Some(Str(x.id)), Text(x.text.title), Text(x.text.description), Text(x.subject), OptionalSchema(x.schema)]
  }

  function EvidenceJson(x: M.EvidenceType): Json { Record(EVIDENCE_KEYS, EvidenceValues(x)) }

  function ReadEvidence(v: Json): Option<M.EvidenceType> {
    var f :- Fields(v, EVIDENCE_KEYS);
    var id :- StringOf(f[0]);
    var text :- TitlesOf(f[1], f[2]);
    var subject :- TextOf(f[3]);
    var schema :- SchemaOf(f[4]);
    Some(M.EvidenceType(id, text, subject, schema))
  }

  lemma EvidenceReads(x: M.EvidenceType, w: Json)
    requires Alike(EvidenceJson(x), w)
    ensures ReadEvidence(w).Some? && M.SameEvidence(x, ReadEvidence(w).value)
  {
    hide Alike, AlikeOption, Record, Fields, Text, OptionalSchema, M.SameSchema, StringOf, TitlesOf, TextOf, SchemaOf;
    RecordReads(EVIDENCE_KEYS, EvidenceValues(x), w);
    var v, f := EvidenceValues(x), Fields(w, EVIDENCE_KEYS).value;
    assert AlikeOption(v[0], f[0]) && AlikeOption(v[1], f[1]) && AlikeOption(v[2], f[2]);
    assert AlikeOption(v[3], f[3]) && AlikeOption(v[4], f[4]);
    StringReads(x.id, f[0]);
    TitlesRead(x.text, f[1], f[2]);
    TextReads(x.subject, f[3]);
    OptionalSchemaReads(x.schema, f[4]);
  }

  lemma EvidenceWritten(v: Json, x: M.EvidenceType)
    requires ReadEvidence(v) == Some(x) && Printable(v)
    ensures Alike(EvidenceJson(x), v)
  {
    hide Alike, AlikeOption, Record, Fields, Printable, PrintableOption, Text, OptionalSchema, StringOf, TitlesOf, TextOf, SchemaOf;
    FieldsPrint(v, EVIDENCE_KEYS);
    var f := Fields(v, EVIDENCE_KEYS).value;
    assert forall i :: 0 <= i < |f| ==> PrintableOption(f[i]);
    StringWritten(f[0], x.id);
    TitlesWritten(f[1], f[2], x.text);
    TextWritten(f[3], x.subject);
    OptionalSchemaWritten(f[4], x.schema);
    RecordWritten(EVIDENCE_KEYS, EvidenceValues(x), v);
  }

  lemma EvidenceDepth(x: M.EvidenceType)
    requires M.SchemaOk(x.schema)
    ensures Depth(EvidenceJson(x)) <= 9
  {
    hide Record, OptionalSchema, M.SchemaOk;
    OptionalSchemaDepth(x.schema);
    RecordDepth(EVIDENCE_KEYS, EvidenceValues(x), 8);
  }

  // ----- dependencies, the core contract and the metadata

  const DIGEST := Js("manifestDigest")

  const DEPENDENCY_KEYS := [ID, VERSION, DIGEST]

  function DependencyValues(x: M.Dependency): Values { [Some(Str(x.id)), Some(Str(x.version)), Some(Str(x.digest))] }

  function DependencyJson(x: M.Dependency): Json { Record(DEPENDENCY_KEYS, DependencyValues(x)) }

  function ReadDependency(v: Json): Option<M.Dependency> {
    var f :- Fields(v, DEPENDENCY_KEYS);
    var id :- StringOf(f[0]);
    var version :- StringOf(f[1]);
    var digest :- StringOf(f[2]);
    Some(M.Dependency(id, version, digest))
  }

  lemma DependencyReads(x: M.Dependency, w: Json)
    requires Alike(DependencyJson(x), w)
    ensures ReadDependency(w) == Some(x)
  {
    hide Alike, AlikeOption, Record, Fields, StringOf;
    RecordReads(DEPENDENCY_KEYS, DependencyValues(x), w);
    var v, f := DependencyValues(x), Fields(w, DEPENDENCY_KEYS).value;
    assert AlikeOption(v[0], f[0]) && AlikeOption(v[1], f[1]) && AlikeOption(v[2], f[2]);
    StringReads(x.id, f[0]);
    StringReads(x.version, f[1]);
    StringReads(x.digest, f[2]);
  }

  lemma DependencyWritten(v: Json, x: M.Dependency)
    requires ReadDependency(v) == Some(x) && Printable(v)
    ensures Alike(DependencyJson(x), v)
  {
    hide Alike, AlikeOption, Record, Fields, Printable, PrintableOption, StringOf;
    FieldsPrint(v, DEPENDENCY_KEYS);
    var f := Fields(v, DEPENDENCY_KEYS).value;
    assert forall i :: 0 <= i < |f| ==> PrintableOption(f[i]);
    StringWritten(f[0], x.id);
    StringWritten(f[1], x.version);
    StringWritten(f[2], x.digest);
    RecordWritten(DEPENDENCY_KEYS, DependencyValues(x), v);
  }

  lemma DependencyDepth(x: M.Dependency)
    ensures Depth(DependencyJson(x)) <= 1
  {
    hide Record;
    RecordDepth(DEPENDENCY_KEYS, DependencyValues(x), 0);
  }

  const CORE_KEYS := [Js("minInclusive"), Js("maxExclusive")]

  function CoreValues(h: M.Header): Values { [Some(Num(h.minInclusive)), Some(Num(h.maxExclusive))] }

  function CoreJson(h: M.Header): Json { Record(CORE_KEYS, CoreValues(h)) }

  /** An interval of natural numbers, both ends required. */
  function CoreOf(w: Option<Json>): Option<(nat, nat)> {
    if w.None? then None else
    var f :- Fields(w.value, CORE_KEYS);
    var low :- SizeOf(f[0]);
    var high :- SizeOf(f[1]);
    if low.None? || high.None? then None else Some((low.value, high.value))
  }

  lemma CoreReads(h: M.Header, w: Option<Json>)
    requires AlikeOption(Some(CoreJson(h)), w)
    ensures CoreOf(w) == Some((h.minInclusive, h.maxExclusive))
  {
    hide Alike, Record, Fields, SizeOf;
    assert CORE_KEYS[0][1] == 'i' as int && CORE_KEYS[1][1] == 'a' as int;
    RecordReads(CORE_KEYS, CoreValues(h), w.value);
    var v, f := CoreValues(h), Fields(w.value, CORE_KEYS).value;
    assert AlikeOption(v[0], f[0]) && AlikeOption(v[1], f[1]);
    SizeReads(Some(h.minInclusive), f[0]);
    SizeReads(Some(h.maxExclusive), f[1]);
  }

  lemma CoreWritten(w: Option<Json>, h: M.Header)
    requires CoreOf(w) == Some((h.minInclusive, h.maxExclusive)) && PrintableOption(w)
    ensures AlikeOption(Some(CoreJson(h)), w)
  {
    hide Alike, Record, Fields, SizeOf, Printable;
    assert CORE_KEYS[0][1] == 'i' as int && CORE_KEYS[1][1] == 'a' as int;
    FieldsPrint(w.value, CORE_KEYS);
    var f := Fields(w.value, CORE_KEYS).value;
    assert forall i :: 0 <= i < |f| ==> PrintableOption(f[i]);
    SizeWritten(f[0], Some(h.minInclusive));
    SizeWritten(f[1], Some(h.maxExclusive));
    RecordWritten(CORE_KEYS, CoreValues(h), w.value);
  }

  const METADATA_KEYS := [Js("name"), DESCRIPTION]

  function MetadataValues(h: M.Header): Values { [Some(Str(h.name)), Some(Str(h.description))] }

  function MetadataJson(h: M.Header): Json { Record(METADATA_KEYS, MetadataValues(h)) }

  function MetadataOf(w: Option<Json>): Option<(JsString, JsString)> {
    if w.None? then None else
    var f :- Fields(w.value, METADATA_KEYS);
    var name :- StringOf(f[0]);
    var description :- StringOf(f[1]);
    Some((name, description))
  }

  lemma MetadataReads(h: M.Header, w: Option<Json>)
    requires AlikeOption(Some(MetadataJson(h)), w)
    ensures MetadataOf(w) == Some((h.name, h.description))
  {
    hide Alike, Record, Fields, StringOf;
    RecordReads(METADATA_KEYS, MetadataValues(h), w.value);
    var v, f := MetadataValues(h), Fields(w.value, METADATA_KEYS).value;
    assert AlikeOption(v[0], f[0]) && AlikeOption(v[1], f[1]);
    StringReads(h.name, f[0]);
    StringReads(h.description, f[1]);
  }

  lemma MetadataWritten(w: Option<Json>, h: M.Header)
    requires MetadataOf(w) == Some((h.name, h.description)) && PrintableOption(w)
    ensures AlikeOption(Some(MetadataJson(h)), w)
  {
    hide Alike, Record, Fields, StringOf, Printable;
    FieldsPrint(w.value, METADATA_KEYS);
    var f := Fields(w.value, METADATA_KEYS).value;
    assert forall i :: 0 <= i < |f| ==> PrintableOption(f[i]);
    StringWritten(f[0], h.name);
    StringWritten(f[1], h.description);
    RecordWritten(METADATA_KEYS, MetadataValues(h), w.value);
  }
}
