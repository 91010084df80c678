/** The deployment plan parser and printer (src/plan.cpp). */
module Plan {
  import opened Prelude
  import opened AgentState
  import opened AgentModel
  import opened Fields
  import opened PlanText

  const MAX_PLAN_BYTES: nat := 4 * 1024 * 1024
  const MAX_LINE: nat := 4096
  const MAX_TARGETS: nat := 4096
  const MAX_LINES: nat := MAX_TARGETS * 16 + 64
  const MAX_MEDIA_TYPE: nat := 64
  const MAX_PRODUCER: nat := 128
  const MAX_SOURCE: nat := 512
  const DEFAULT_MEDIA_TYPE: string := "application/octet-stream"

  datatype Instruction = Instruction(
    target: Id, klass: TargetClass, guarantee: Guarantee, configKey: Id, artifact: Id, revision: u64, generation: u64,
    schema: Id, schemaVersion: u32, digest: Digest, size: u64, requirement: Requirement,
    mediaType: string, producer: string, source: string, endpoint: string)

  datatype DeploymentPlan = DeploymentPlan(setId: Id, rolloutSet: Id, instructions: seq<Instruction>)

  function Blank(target: Id): Instruction {
    Instruction(target, Unspecified, AtomicActivate, UNSET, UNSET, 0, 0, UNSET, 0, NO_DIGEST, 0, RequireAtomic,
                DEFAULT_MEDIA_TYPE, "", "", "")
  }

  datatype PlanError =
    | OversizePayload | LimitExceeded | MalformedInput | UnsupportedVersion | MissingField | AlreadyExists
    | InvalidArgument | OutOfRange | ArithmeticOverflow | TruncatedFrame

  // ---- Keywords ----

  datatype FieldName =
    | Class | ItsGuarantee | ConfigKey | Artifact | Revision | Generation | Schema | SchemaVersion | ItsDigest | Size
    | Requires | MediaType | Producer | Source | Endpoint

  datatype Keyword = Header | SetId | RolloutSet | Target | End | Names(field: FieldName) | Unknown

  function Name(f: FieldName): string {
    match f
    case Class => "class"
    case ItsGuarantee => "guarantee"
    case ConfigKey => "config-key"
    case Artifact => "artifact"
    case Revision => "revision"
    case Generation => "generation"
    case Schema => "schema"
    case SchemaVersion => "schema-version"
    case ItsDigest => "digest"
    case Size => "size"
    case Requires => "requires"
    case MediaType => "media-type"
    case Producer => "producer"
    case Source => "source"
    case Endpoint => "endpoint"
  }

  function FieldKeyword(s: string): Keyword {
    if s == "class" then Names(Class)
    else if s == "guarantee" then Names(ItsGuarantee)
    else if s == "config-key" then Names(ConfigKey)
    else if s == "artifact" then Names(Artifact)
    else if s == "revision" then Names(Revision)
    else if s == "generation" then Names(Generation)
    else if s == "schema" then Names(Schema)
    else if s == "schema-version" then Names(SchemaVersion)
    else if s == "digest" then Names(ItsDigest)
    else if s == "size" then Names(Size)
    else if s == "requires" then Names(Requires)
    else if s == "media-type" then Names(MediaType)
    else if s == "producer" then Names(Producer)
    else if s == "source" then Names(Source)
    else if s == "endpoint" then Names(Endpoint)
    else Unknown
  }

  function KeywordOf(s: string): Keyword {
    if s == "cf-plan" then Header
    else if s == "set-id" then SetId
    else if s == "rollout-set" then RolloutSet
    else if s == "target" then Target
    else if s == "end" then End
    else FieldKeyword(s)
  }

  lemma FieldNames1(f: FieldName)
    requires f == Class || f == ItsGuarantee || f == ConfigKey
    ensures KeywordOf(Name(f)) == Names(f)
  {
    var s := Name(f);
    match f
    case Class => assert s[0] == 'c' && |s| == 5;
    case ItsGuarantee => assert s[0] == 'g' && |s| == 9;
    case ConfigKey => assert s[0] == 'c' && |s| == 10;
    case _ =>
  }

  lemma FieldNames2(f: FieldName)
    requires f == Artifact || f == Revision || f == Generation
    ensures KeywordOf(Name(f)) == Names(f)
  {
    var s := Name(f);
    match f
    case Artifact => assert s[0] == 'a';
    case Revision => assert s[0] == 'r' && |s| == 8 && s[2] == 'v';
    case Generation => assert s[0] == 'g' && |s| == 10;
    case _ =>
  }

  lemma FieldNames3(f: FieldName)
    requires f == Schema || f == SchemaVersion || f == ItsDigest
    ensures KeywordOf(Name(f)) == Names(f)
  {
    var s := Name(f);
    match f
    case Schema => assert s[0] == 's' && |s| == 6 && s[1] == 'c';
    case SchemaVersion => assert s[0] == 's' && |s| == 14;
    case ItsDigest => assert s[0] == 'd';
    case _ =>
  }

  lemma FieldNames4(f: FieldName)
    requires f == Size || f == Requires || f == MediaType
    ensures KeywordOf(Name(f)) == Names(f)
  {
    var s := Name(f);
    match f
    case Size => assert s[0] == 's' && |s| == 4;
    case Requires => assert s[0] == 'r' && |s| == 8 && s[2] == 'q';
    case MediaType => assert s[0] == 'm';
    case _ =>
  }

  lemma FieldNames5(f: FieldName)
    requires f == Producer || f == Source || f == Endpoint
    ensures KeywordOf(Name(f)) == Names(f)
  {
    var s := Name(f);
    match f
    case Producer => assert s[0] == 'p';
    case Source => assert s[0] == 's' && |s| == 6 && s[1] == 'o';
    case Endpoint => assert s[0] == 'e' && |s| == 8;
    case _ =>
  }

  lemma FieldNames(f: FieldName)
    ensures KeywordOf(Name(f)) == Names(f)
  {
    hide KeywordOf, Name;
    match f {
      case Class => FieldNames1(f);
      case ItsGuarantee => FieldNames1(f);
      case ConfigKey => FieldNames1(f);
      case Artifact => FieldNames2(f);
      case Revision => FieldNames2(f);
      case Generation => FieldNames2(f);
      case Schema => FieldNames3(f);
      case SchemaVersion => FieldNames3(f);
      case ItsDigest => FieldNames3(f);
      case Size => FieldNames4(f);
      case Requires => FieldNames4(f);
      case MediaType => FieldNames4(f);
      case Producer => FieldNames5(f);
      case Source => FieldNames5(f);
      case Endpoint => FieldNames5(f);
    }
  }

  /** A keyword is one word without blanks that does not start a comment. */
  predicate IsWord(s: string) {
    s != "" && s[0] != '#' && forall i :: 0 <= i < |s| ==> 'a' <= s[i] <= 'z' || s[i] == '-'
  }

  lemma FieldWords(f: FieldName)
    ensures IsWord(Name(f)) && |Name(f)| <= 14
  {
  }

  // ---- One field of a target block ----

  function ClassName(c: TargetClass): string {
    match c
    case Unspecified => "unspecified"
    case NetworkDevice => "network-device"
    case ControlPlaneParticipant => "control-plane-participant"
  }

  function GuaranteeName(g: Guarantee): string {
    match g
    case AtomicActivate => "atomic-activate"
    case PrepareCommitAbort => "prepare-commit-abort"
  }

  function RequirementName(r: Requirement): string {
    match r
    case RequireAtomic => "require-atomic"
    case AllowPrepareCommit => "allow-prepare-commit"
  }

  function Number(v: string): Result<u64, PlanError> {
    match NumberFrom(v)
    case Ok(n) => Ok(n)
    case Err(Missing) => Err(MissingField)
    case Err(NotDecimal) => Err(InvalidArgument)
    case Err(Overflow) => Err(ArithmeticOverflow)
  }

  function Identifier(v: string): Result<Id, PlanError> {
    if v == "" then Err(MissingField) else if IsIdentifier(v) then Ok(v) else Err(InvalidArgument)
  }

  /** What the parser needs to know about endpoints, which the transport layer decides. */
  datatype Dialing = Dialing(dialable: string -> bool)

  function SetField(dial: Dialing, c: Instruction, f: FieldName, v: string): Result<Instruction, PlanError> {
    match f
    case Class =>
      if v == ClassName(NetworkDevice) then Ok(c.(klass := NetworkDevice))
      else if v == ClassName(ControlPlaneParticipant) then Ok(c.(klass := ControlPlaneParticipant))
      else if v == ClassName(Unspecified) then Ok(c.(klass := Unspecified))
      else Err(InvalidArgument)
    case ItsGuarantee =>
      if v == GuaranteeName(AtomicActivate) then Ok(c.(guarantee := AtomicActivate))
      else if v == GuaranteeName(PrepareCommitAbort) then Ok(c.(guarantee := PrepareCommitAbort))
      else Err(InvalidArgument)
    case ConfigKey => (match Identifier(v) case Ok(id) => Ok(c.(configKey := id)) case Err(e) => Err(e))
    case Artifact => (match Identifier(v) case Ok(id) => Ok(c.(artifact := id)) case Err(e) => Err(e))
    case Revision => (match Number(v) case Ok(n) => Ok(c.(revision := n)) case Err(e) => Err(e))
    case Generation => (match Number(v) case Ok(n) => Ok(c.(generation := n)) case Err(e) => Err(e))
    case Schema => (match Identifier(v) case Ok(id) => Ok(c.(schema := id)) case Err(e) => Err(e))
    case SchemaVersion =>
      (match Number(v)
       case Ok(n) => if n < U32_LIMIT then Ok(c.(schemaVersion := n)) else Err(OutOfRange)
       case Err(e) => Err(e))
    case ItsDigest =>
      (match FromHex(v)
       case Some(b) => if |v| == 64 then Ok(c.(digest := b)) else Err(MalformedInput)
       case None => Err(MalformedInput))
    case Size => (match Number(v) case Ok(n) => Ok(c.(size := n)) case Err(e) => Err(e))
    case Requires =>
      if v == RequirementName(RequireAtomic) then Ok(c.(requirement := RequireAtomic))
      else if v == RequirementName(AllowPrepareCommit) then Ok(c.(requirement := AllowPrepareCommit))
      else Err(InvalidArgument)
    case MediaType => if v == "" || |v| > MAX_MEDIA_TYPE then Err(InvalidArgument) else Ok(c.(mediaType := v))
    case Producer => if |v| > MAX_PRODUCER then Err(InvalidArgument) else Ok(c.(producer := v))
    case Source => if v == "" || |v| > MAX_SOURCE then Err(InvalidArgument) else Ok(c.(source := v))
    case Endpoint => if v != "" && dial.dialable(v) then Ok(c.(endpoint := v)) else Err(OutOfRange)
  }

  // ---- The line automaton ----

  datatype Entry = Entry(keyword: string, value: string)

  /** What the parser holds between lines. */
  datatype Parser = Parser(
    haveHeader: bool, plan: DeploymentPlan, inTarget: bool, current: Instruction, seen: set<FieldName>, targets: set<Id>)

  const START: Parser := Parser(false, DeploymentPlan(UNSET, UNSET, []), false, Blank(UNSET), {}, {})

  const MANDATORY: set<FieldName> :=
    {Class, ItsGuarantee, ConfigKey, Artifact, Revision, Generation, Schema, SchemaVersion, ItsDigest, Size, Requires}

  function FinishTarget(p: Parser): Result<Parser, PlanError> {
    if !(MANDATORY <= p.seen) then Err(MalformedInput)
    else if p.current.size == 0 || p.current.digest == NO_DIGEST || p.current.generation == 0 then Err(MalformedInput)
    else if p.current.target in p.targets then Err(MalformedInput)
    else
      Ok(p.(plan := p.plan.(instructions := p.plan.instructions + [p.current]),
            targets := p.targets + {p.current.target}, inTarget := false))
  }

  function StartTarget(p: Parser, v: string): Result<Parser, PlanError> {
    if p.plan.setId == UNSET then Err(MalformedInput)
    else if |p.plan.instructions| >= MAX_TARGETS then Err(LimitExceeded)
    else
      match Identifier(v)
      case Err(e) => Err(e)
      case Ok(id) => Ok(p.(current := Blank(id), seen := {}, inTarget := true))
  }

  function Step(dial: Dialing, p: Parser, e: Entry): Result<Parser, PlanError> {
    var k, v := KeywordOf(e.keyword), e.value;
    if !p.haveHeader then
      if k != Header then Err(MalformedInput)
      else
        match Number(v)
        case Err(x) => Err(x)
        case Ok(n) => if n == 1 then Ok(p.(haveHeader := true)) else Err(UnsupportedVersion)
    else
      match k
      case SetId =>
        if p.inTarget then Err(MalformedInput)
        else (match Identifier(v) case Err(x) => Err(x) case Ok(id) => Ok(p.(plan := p.plan.(setId := id))))
      case RolloutSet =>
        if p.inTarget then Err(MalformedInput)
        else (match Identifier(v) case Err(x) => Err(x) case Ok(id) => Ok(p.(plan := p.plan.(rolloutSet := id))))
      case Target =>
        if p.inTarget then (match FinishTarget(p) case Err(x) => Err(x) case Ok(q) => StartTarget(q, v))
        else StartTarget(p, v)
      case End => if p.inTarget then FinishTarget(p) else Err(MalformedInput)
      case Names(f) =>
        if !p.inTarget then Err(MalformedInput)
        else if f in p.seen then Err(AlreadyExists)
        else
          (match SetField(dial, p.current, f, v)
           case Err(x) => Err(x)
           case Ok(c) => Ok(p.(current := c, seen := p.seen + {f})))
      case _ => Err(MalformedInput)
  }

  function Steps(dial: Dialing, p: Parser, es: seq<Entry>): Result<Parser, PlanError>
    decreases |es|
  {
    if es == [] then Ok(p)
    else
      match Step(dial, p, es[0])
      case Err(x) => Err(x)
      case Ok(q) => Steps(dial, q, es[1..])
  }

  function Finish(p: Parser): Result<DeploymentPlan, PlanError> {
    if !p.haveHeader then Err(MalformedInput)
    else if p.inTarget then Err(TruncatedFrame)
    else if p.plan.setId == UNSET then Err(MissingField)
    else if p.plan.instructions == [] then Err(MissingField)
    else Ok(p.plan)
  }

  // ---- Lines ----

  function Tokenize(line: string): Entry {
    match IndexOf(line, ' ')
    case None => Entry(line, "")
    case Some(i) => Entry(line[..i], Trim(line[i + 1..]))
  }

  predicate IsSkipped(line: string) {
    line == "" || line[0] == '#'
  }

  function Entries(lines: seq<string>): seq<Entry> {
    if lines == [] then []
    else
      var t := Trim(lines[0]);
      (if IsSkipped(t) then [] else [Tokenize(t)]) + Entries(lines[1..])
  }

  predicate LinesFit(lines: seq<string>) {
    |lines| <= MAX_LINES && forall l :: l in lines ==> |l| <= MAX_LINE
  }

  function Parse(dial: Dialing, text: string): Result<DeploymentPlan, PlanError> {
    if |text| > MAX_PLAN_BYTES then Err(OversizePayload)
    else if !LinesFit(Split(text)) then Err(LimitExceeded)
    else
      match Steps(dial, START, Entries(Split(text)))
      case Err(x) => Err(x)
      case Ok(p) => Finish(p)
  }

  /** The parser's loop over the lines. */
  method ParsePlan(dial: Dialing, text: string) returns (r: Result<DeploymentPlan, PlanError>)
    ensures r == Parse(dial, text)
  {
    hide Step, Finish, Split, Trim, Tokenize;
    if |text| > MAX_PLAN_BYTES { return Err(OversizePayload); }
    var lines := Split(text);
    if !LinesFit(lines) { return Err(LimitExceeded); }
    var p := START;
    for i := 0 to |lines|
      invariant Steps(dial, START, Entries(lines)) == Steps(dial, p, Entries(lines[i..]))
    {
      assert lines[i..][0] == lines[i] && lines[i..][1..] == lines[i + 1..];
      var line := Trim(lines[i]);
      if !IsSkipped(line) {
        ghost var rest := Entries(lines[i + 1..]);
        assert ([Tokenize(line)] + rest)[0] == Tokenize(line) && ([Tokenize(line)] + rest)[1..] == rest;
        var next := Step(dial, p, Tokenize(line));
        if next.Err? { return Err(next.error); }
        p := next.value;
      } else {
        assert [] + Entries(lines[i + 1..]) == Entries(lines[i + 1..]);
      }
    }
    assert Entries(lines[|lines|..]) == [];
    r := Finish(p);
  }

  // ---- Printing ----

  function FieldText(i: Instruction, f: FieldName): string {
    match f
    case Class => ClassName(i.klass)
    case ItsGuarantee => GuaranteeName(i.guarantee)
    case ConfigKey => i.configKey
    case Artifact => i.artifact
    case Revision => Decimal(i.revision)
    case Generation => Decimal(i.generation)
    case Schema => i.schema
    case SchemaVersion => Decimal(i.schemaVersion)
    case ItsDigest => Hex(i.digest)
    case Size => Decimal(i.size)
    case Requires => RequirementName(i.requirement)
    case MediaType => i.mediaType
    case Producer => i.producer
    case Source => i.source
    case Endpoint => i.endpoint
  }

  function Always(): seq<FieldName> {
    [Class, ItsGuarantee, ConfigKey, Artifact, Revision, Generation, Schema, SchemaVersion, ItsDigest, Size, Requires, MediaType]
  }

  /** The fields printed for an instruction, in order; the last three only when they are set. */
  function Printed(i: Instruction): seq<FieldName> {
    Always() + (if i.producer != "" then [Producer] else []) + (if i.source != "" then [Source] else [])
    + (if i.endpoint != "" then [Endpoint] else [])
  }

  function Line(indent: string, k: string, v: string): string {
    indent + k + " " + v
  }

  function FieldLines(i: Instruction, fs: seq<FieldName>): seq<string> {
    if fs == [] then [] else [Line("  ", Name(fs[0]), FieldText(i, fs[0]))] + FieldLines(i, fs[1..])
  }

  function BlockLines(i: Instruction): seq<string> {
    [Line("", "target", i.target)] + FieldLines(i, Printed(i)) + ["end"]
  }

  function AllBlocks(all: seq<Instruction>): seq<string> {
    if all == [] then [] else BlockLines(all[0]) + AllBlocks(all[1..])
  }

  function PlanLines(p: DeploymentPlan): seq<string> {
    [Line("", "cf-plan", "1"), Line("", "set-id", p.setId)]
    + (if p.rolloutSet != UNSET then [Line("", "rollout-set", p.rolloutSet)] else []) + AllBlocks(p.instructions)
  }

  function Render(p: DeploymentPlan): string {
    Join(PlanLines(p))
  }

  lemma {:induction false} JoinConcat(a: seq<string>, b: seq<string>)
    ensures Join(a + b) == Join(a) + Join(b)
  {
    if a == [] {
      assert a + b == b;
    } else {
      assert (a + b)[0] == a[0] && (a + b)[1..] == a[1..] + b;
      JoinConcat(a[1..], b);
      assert a[0] + "\n" + (Join(a[1..]) + Join(b)) == (a[0] + "\n" + Join(a[1..])) + Join(b);
    }
  }

  lemma JoinOne(l: string)
    ensures Join([l]) == l + "\n"
  {
    assert [l][1..] == [];
  }

  /** `renderDeploymentPlan` appends line by line. */
  method RenderPlan(p: DeploymentPlan) returns (out: string)
    ensures out == Render(p)
  {
    hide Join, Line, BlockLines;
    ghost var header := [Line("", "cf-plan", "1"), Line("", "set-id", p.setId)];
    ghost var rollout := if p.rolloutSet != UNSET then [Line("", "rollout-set", p.rolloutSet)] else [];
    out := Emit([Line("", "cf-plan", "1"), Line("", "set-id", p.setId)]);
    if p.rolloutSet != UNSET {
      var more := Emit([Line("", "rollout-set", p.rolloutSet)]);
      JoinConcat(header, rollout);
      out := out + more;
    } else {
      assert header + rollout == header;
    }
    for i := 0 to |p.instructions|
      invariant out + Join(AllBlocks(p.instructions[i..])) == Join(header + rollout) + Join(AllBlocks(p.instructions))
    {
      assert p.instructions[i..][0] == p.instructions[i] && p.instructions[i..][1..] == p.instructions[i + 1..];
      var block := Emit(BlockLines(p.instructions[i]));
      JoinConcat(BlockLines(p.instructions[i]), AllBlocks(p.instructions[i + 1..]));
      out := out + block;
    }
    JoinNothing();
    assert AllBlocks(p.instructions[|p.instructions|..]) == [];
    JoinConcat(header + rollout, AllBlocks(p.instructions));
    assert PlanLines(p) == header + rollout + AllBlocks(p.instructions);
  }

  lemma JoinNothing()
    ensures Join([]) == ""
  {
  }

  method Emit(lines: seq<string>) returns (out: string)
    ensures out == Join(lines)
  {
    hide Join;
    JoinNothing();
    out := "";
    for i := 0 to |lines|
      invariant out == Join(lines[..i])
    {
      assert lines[..i + 1] == lines[..i] + [lines[i]];
      JoinConcat(lines[..i], [lines[i]]);
      JoinOne(lines[i]);
      out := out + lines[i] + "\n";
    }
    assert lines[..|lines|] == lines;
  }

  // ---- What an accepted plan looks like ----

  predicate Clean(v: string) {
    Trimmed(v) && FreeOf(v, '\n')
  }

  predicate InstructionOk(dial: Dialing, i: Instruction) {
    && IsIdentifier(i.target) && IsIdentifier(i.configKey) && IsIdentifier(i.artifact) && IsIdentifier(i.schema)
    && i.generation != 0 && i.size != 0 && |i.digest| == 32 && i.digest != NO_DIGEST
    && i.mediaType != "" && |i.mediaType| <= MAX_MEDIA_TYPE && Clean(i.mediaType)
    && |i.producer| <= MAX_PRODUCER && Clean(i.producer) && |i.source| <= MAX_SOURCE && Clean(i.source)
    && Clean(i.endpoint) && (i.endpoint == "" || dial.dialable(i.endpoint))
  }

  predicate DistinctTargets(all: seq<Instruction>) {
    forall a, b :: 0 <= a < b < |all| ==> all[a].target != all[b].target
  }

  predicate PlanOk(dial: Dialing, p: DeploymentPlan) {
    && IsIdentifier(p.setId) && (p.rolloutSet == UNSET || IsIdentifier(p.rolloutSet))
    && 0 < |p.instructions| <= MAX_TARGETS && DistinctTargets(p.instructions)
    && forall i :: i in p.instructions ==> InstructionOk(dial, i)
  }

  // ---- Tokens of printed lines ----

  lemma WordHasNoBlank(s: string)
    requires IsWord(s)
    ensures FreeOf(s, ' ') && FreeOf(s, '\n') && forall i :: 0 <= i < |s| ==> !IsBlank(s[i])
  {
  }

  lemma TrimIndent(s: string)
    requires s != "" && !IsBlank(s[0])
    ensures TrimLeft("  " + s) == s && TrimLeft(s) == s
  {
    var once, twice := " " + s, "  " + s;
    assert twice[0] == ' ' && twice[1..] == once;
    assert once[0] == ' ' && once[1..] == s;
    assert TrimLeft(once) == TrimLeft(s);
  }

  /** A printed line is read back as its keyword and value, also when the value is empty. */
  lemma LineTokens(indent: string, k: string, v: string)
    requires (indent == "" || indent == "  ") && IsWord(k) && Clean(v)
    ensures !IsSkipped(Trim(Line(indent, k, v))) && Tokenize(Trim(Line(indent, k, v))) == Entry(k, v)
  {
    hide IsWord, TrimLeft, TrimRight;
    WordFacts(k);
    var body := k + " " + v;
    assert Line(indent, k, v) == indent + body;
    assert body[0] == k[0];
    assert "" + body == body;
    TrimIndent(body);
    if v == "" {
      assert body == k + " ";
      TrimLastBlank(k);
      WordTokens(k);
    } else {
      assert body[|body| - 1] == v[|v| - 1];
      TrimRightStays(body);
      assert body[..|k|] == k && body[|k|] == ' ' && body[|k| + 1..] == v;
      WordHasNoBlank(k);
      IndexIsFirst(body, ' ', |k|);
      TrimmedStays(v);
    }
  }

  lemma WordFacts(k: string)
    requires IsWord(k)
    ensures k != "" && k[0] != '#' && !IsBlank(k[0]) && !IsBlank(k[|k| - 1])
  {
  }

  lemma TrimRightStays(s: string)
    requires s != "" && !IsBlank(s[|s| - 1])
    ensures TrimRight(s) == s
  {
  }

  lemma TrimLastBlank(k: string)
    requires k != "" && !IsBlank(k[|k| - 1])
    ensures TrimRight(k + " ") == k
  {
    var s := k + " ";
    assert s[..|s| - 1] == k;
    TrimRightStays(k);
  }

  lemma WordTokens(k: string)
    requires IsWord(k)
    ensures Tokenize(k) == Entry(k, "") && Trim(k) == k && !IsSkipped(k)
  {
    WordHasNoBlank(k);
    NoIndex(k, ' ');
    WordFacts(k);
    TrimmedStays(k);
  }

  lemma NoIndex(s: string, c: char)
    requires FreeOf(s, c)
    ensures IndexOf(s, c) == None
  {
  }

  lemma {:induction false} EntriesConcat(a: seq<string>, b: seq<string>)
    ensures Entries(a + b) == Entries(a) + Entries(b)
    decreases |a|
  {
    hide Trim, Tokenize, IsSkipped;
    if a == [] {
      assert a + b == b;
    } else {
      assert (a + b)[0] == a[0] && (a + b)[1..] == a[1..] + b;
      EntriesConcat(a[1..], b);
    }
  }

  lemma OneEntry(l: string)
    ensures Entries([l]) == if IsSkipped(Trim(l)) then [] else [Tokenize(Trim(l))]
  {
    hide Trim, Tokenize, IsSkipped;
    assert [l][1..] == [];
  }

  function FieldEntries(i: Instruction, fs: seq<FieldName>): seq<Entry> {
    if fs == [] then [] else [Entry(Name(fs[0]), FieldText(i, fs[0]))] + FieldEntries(i, fs[1..])
  }

  function BlockEntries(i: Instruction): seq<Entry> {
    [Entry("target", i.target)] + FieldEntries(i, Printed(i)) + [Entry("end", "")]
  }

  lemma IdentifierClean(s: string)
    requires IsIdentifier(s)
    ensures Clean(s)
  {
    forall i | 0 <= i < |s| ensures s[i] != '\n' && !IsBlank(s[i]) { assert IdentifierChar(s[i]); }
  }

  lemma DigitsClean(s: string)
    requires AllDigits(s)
    ensures Clean(s)
  {
    forall i | 0 <= i < |s| ensures s[i] != '\n' && !IsBlank(s[i]) { assert IsDigit(s[i]); }
  }

  lemma {:induction false} HexClean(b: Bytes)
    ensures Clean(Hex(b)) && FreeOf(Hex(b), ' ')
  {
    if b != [] { HexClean(b[1..]); }
  }

  lemma TextsClean(dial: Dialing, i: Instruction, f: FieldName)
    requires InstructionOk(dial, i)
    ensures Clean(FieldText(i, f))
  {
    hide IsIdentifier, Clean, Decimal, Hex;
    match f {
      case ConfigKey => IdentifierClean(i.configKey);
      case Artifact => IdentifierClean(i.artifact);
      case Schema => IdentifierClean(i.schema);
      case Revision => DecimalClean(i.revision);
      case Generation => DecimalClean(i.generation);
      case SchemaVersion => DecimalClean(i.schemaVersion);
      case Size => DecimalClean(i.size);
      case ItsDigest => HexClean(i.digest);
      case Class => EnumsClean(i);
      case ItsGuarantee => EnumsClean(i);
      case Requires => EnumsClean(i);
      case _ =>
    }
  }

  lemma DecimalClean(n: nat)
    ensures Clean(Decimal(n))
  {
    DigitsClean(Decimal(n));
  }

  lemma EnumsClean(i: Instruction)
    ensures Clean(ClassName(i.klass)) && Clean(GuaranteeName(i.guarantee)) && Clean(RequirementName(i.requirement))
  {
  }

  predicate NoNewlines(lines: seq<string>) {
    forall l :: l in lines ==> FreeOf(l, '\n')
  }

  lemma LineHasNoNewline(indent: string, k: string, v: string)
    requires (indent == "" || indent == "  ") && IsWord(k) && Clean(v)
    ensures FreeOf(Line(indent, k, v), '\n')
  {
    WordHasNoBlank(k);
  }

  lemma {:induction false} FieldLinesRead(dial: Dialing, i: Instruction, fs: seq<FieldName>)
    requires InstructionOk(dial, i)
    ensures Entries(FieldLines(i, fs)) == FieldEntries(i, fs) && NoNewlines(FieldLines(i, fs))
    decreases |fs|
  {
    hide InstructionOk, Line, Trim, Tokenize, IsSkipped, Name, FieldText, Clean, IsWord, FreeOf;
    if fs != [] {
      FieldWords(fs[0]);
      TextsClean(dial, i, fs[0]);
      LineTokens("  ", Name(fs[0]), FieldText(i, fs[0]));
      LineHasNoNewline("  ", Name(fs[0]), FieldText(i, fs[0]));
      FieldLinesRead(dial, i, fs[1..]);
    }
  }

  lemma EndLine()
    ensures IsWord("end") && FreeOf("end", '\n') && IsWord("target") && IsWord("cf-plan") && IsWord("set-id") && IsWord("rollout-set")
    ensures Entries(["end"]) == [Entry("end", "")]
  {
    hide Trim, Tokenize, IsSkipped;
    WordTokens("end");
    OneEntry("end");
  }

  lemma OneLine(indent: string, k: string, v: string)
    requires (indent == "" || indent == "  ") && IsWord(k) && Clean(v)
    ensures Entries([Line(indent, k, v)]) == [Entry(k, v)] && FreeOf(Line(indent, k, v), '\n')
  {
    hide Trim, Tokenize, IsSkipped, Line, IsWord, Clean, FreeOf;
    LineTokens(indent, k, v);
    OneEntry(Line(indent, k, v));
    LineHasNoNewline(indent, k, v);
  }

  lemma BlockRead(dial: Dialing, i: Instruction)
    requires InstructionOk(dial, i)
    ensures Entries(BlockLines(i)) == BlockEntries(i) && NoNewlines(BlockLines(i))
  {
    hide Line, Entries, FieldLines, FieldEntries, Printed, FreeOf, IsWord, Clean, IsIdentifier;
    var a, b, c := [Line("", "target", i.target)], FieldLines(i, Printed(i)), ["end"];
    EndLine();
    IdentifierClean(i.target);
    OneLine("", "target", i.target);
    FieldLinesRead(dial, i, Printed(i));
    EntriesConcat(a, b);
    EntriesConcat(a + b, c);
  }

  function AllEntries(all: seq<Instruction>): seq<Entry> {
    if all == [] then [] else BlockEntries(all[0]) + AllEntries(all[1..])
  }

  lemma {:induction false} BlocksRead(dial: Dialing, all: seq<Instruction>)
    requires forall i :: i in all ==> InstructionOk(dial, i)
    ensures Entries(AllBlocks(all)) == AllEntries(all) && NoNewlines(AllBlocks(all))
    decreases |all|
  {
    hide InstructionOk, BlockLines, BlockEntries, FreeOf;
    if all == [] {
      assert Entries([]) == [];
    } else {
      assert all[0] in all;
      BlockRead(dial, all[0]);
      BlocksRead(dial, all[1..]);
      EntriesConcat(BlockLines(all[0]), AllBlocks(all[1..]));
    }
  }

  function PlanEntries(p: DeploymentPlan): seq<Entry> {
    [Entry("cf-plan", "1"), Entry("set-id", p.setId)]
    + (if p.rolloutSet != UNSET then [Entry("rollout-set", p.rolloutSet)] else []) + AllEntries(p.instructions)
  }

  lemma PlanRead(dial: Dialing, p: DeploymentPlan)
    requires PlanOk(dial, p)
    ensures Entries(PlanLines(p)) == PlanEntries(p) && NoNewlines(PlanLines(p))
  {
    hide Line, Entries, AllBlocks, AllEntries, FreeOf, IsWord, Clean, IsIdentifier, InstructionOk;
    var a, b := [Line("", "cf-plan", "1")], [Line("", "set-id", p.setId)];
    var c := if p.rolloutSet != UNSET then [Line("", "rollout-set", p.rolloutSet)] else [];
    EndLine();
    OneIsClean();
    IdentifierClean(p.setId);
    OneLine("", "cf-plan", "1");
    OneLine("", "set-id", p.setId);
    EntriesConcat(a, b);
    if p.rolloutSet != UNSET {
      IdentifierClean(p.rolloutSet);
      OneLine("", "rollout-set", p.rolloutSet);
    } else {
      NoEntries();
    }
    EntriesConcat(a + b, c);
    BlocksRead(dial, p.instructions);
    EntriesConcat(a + b + c, AllBlocks(p.instructions));
    assert PlanLines(p) == a + b + c + AllBlocks(p.instructions);
  }

  lemma OneIsClean()
    ensures Clean("1")
  {
  }

  lemma NoEntries()
    ensures Entries([]) == []
  {
  }

  lemma {:induction false} StepsConcat(dial: Dialing, p: Parser, a: seq<Entry>, b: seq<Entry>)
    ensures Steps(dial, p, a + b) == match Steps(dial, p, a) case Err(x) => Err(x) case Ok(q) => Steps(dial, q, b)
    decreases |a|
  {
    hide Step;
    if a == [] {
      assert a + b == b;
    } else {
      assert (a + b)[0] == a[0] && (a + b)[1..] == a[1..] + b;
      if Step(dial, p, a[0]).Ok? { StepsConcat(dial, Step(dial, p, a[0]).value, a[1..], b); }
    }
  }

  lemma OneStep(dial: Dialing, p: Parser, e: Entry)
    ensures Steps(dial, p, [e]) == Step(dial, p, e)
  {
    hide Step;
    assert [e][1..] == [];
  }

  // ---- Reading a printed block ----

  /** The field `f` of `c`, replaced by that of `i`. */
  function With(c: Instruction, i: Instruction, f: FieldName): Instruction {
    match f
    case Class => c.(klass := i.klass)
    case ItsGuarantee => c.(guarantee := i.guarantee)
    case ConfigKey => c.(configKey := i.configKey)
    case Artifact => c.(artifact := i.artifact)
    case Revision => c.(revision := i.revision)
    case Generation => c.(generation := i.generation)
    case Schema => c.(schema := i.schema)
    case SchemaVersion => c.(schemaVersion := i.schemaVersion)
    case ItsDigest => c.(digest := i.digest)
    case Size => c.(size := i.size)
    case Requires => c.(requirement := i.requirement)
    case MediaType => c.(mediaType := i.mediaType)
    case Producer => c.(producer := i.producer)
    case Source => c.(source := i.source)
    case Endpoint => c.(endpoint := i.endpoint)
  }

  predicate Printable(i: Instruction, f: FieldName) {
    (f == Source ==> i.source != "") && (f == Endpoint ==> i.endpoint != "")
  }

  lemma EnumTexts(i: Instruction)
    ensures ClassName(i.klass) == ClassName(NetworkDevice) <==> i.klass == NetworkDevice
    ensures ClassName(i.klass) == ClassName(ControlPlaneParticipant) <==> i.klass == ControlPlaneParticipant
    ensures GuaranteeName(i.guarantee) == GuaranteeName(AtomicActivate) <==> i.guarantee == AtomicActivate
    ensures RequirementName(i.requirement) == RequirementName(RequireAtomic) <==> i.requirement == RequireAtomic
  {
    assert |ClassName(NetworkDevice)| == 14 && |ClassName(ControlPlaneParticipant)| == 25 && |ClassName(Unspecified)| == 11;
    assert |GuaranteeName(AtomicActivate)| == 15 && |GuaranteeName(PrepareCommitAbort)| == 20;
    assert |RequirementName(RequireAtomic)| == 14 && |RequirementName(AllowPrepareCommit)| == 20;
  }

  /** Parsing the text of one printed field sets exactly that field. */
  lemma FieldRoundTrip(dial: Dialing, c: Instruction, i: Instruction, f: FieldName)
    requires InstructionOk(dial, i) && Printable(i, f)
    ensures SetField(dial, c, f, FieldText(i, f)) == Ok(With(c, i, f))
  {
    hide IsIdentifier, Clean, Decimal, NumberFrom, Hex, FromHex, ClassName, GuaranteeName, RequirementName;
    match f {
      case Revision => NumberRoundTrip(i.revision);
      case Generation => NumberRoundTrip(i.generation);
      case SchemaVersion => NumberRoundTrip(i.schemaVersion);
      case Size => NumberRoundTrip(i.size);
      case ItsDigest => DigestRoundTrip(i.digest);
      case Class => EnumTexts(i);
      case ItsGuarantee => EnumTexts(i);
      case Requires => EnumTexts(i);
      case ConfigKey => NotUnset(i.configKey);
      case Artifact => NotUnset(i.artifact);
      case Schema => NotUnset(i.schema);
      case _ =>
    }
  }

  lemma NotUnset(s: string)
    requires IsIdentifier(s)
    ensures s != ""
  {
  }

  lemma DigestRoundTrip(b: Bytes)
    requires |b| == 32
    ensures FromHex(Hex(b)) == Some(b) && |Hex(b)| == 64
  {
    HexRoundTrip(b);
  }

  function Merged(c: Instruction, i: Instruction, fs: seq<FieldName>): Instruction
    decreases |fs|
  {
    if fs == [] then c else Merged(With(c, i, fs[0]), i, fs[1..])
  }

  predicate DistinctFields(fs: seq<FieldName>) {
    forall a, b :: 0 <= a < b < |fs| ==> fs[a] != fs[b]
  }

  lemma {:induction false} FieldsStep(dial: Dialing, p: Parser, i: Instruction, fs: seq<FieldName>)
    requires InstructionOk(dial, i) && p.haveHeader && p.inTarget && DistinctFields(fs)
    requires forall f :: f in fs ==> f !in p.seen && Printable(i, f)
    ensures Steps(dial, p, FieldEntries(i, fs))
         == Ok(p.(current := Merged(p.current, i, fs), seen := p.seen + set f | f in fs))
    decreases |fs|
  {
    hide InstructionOk, SetField, With, KeywordOf, Name, FieldText;
    if fs == [] {
      assert p.seen + (set f | f in fs) == p.seen;
    } else {
      var f := fs[0];
      assert f in fs;
      FieldNames(f);
      FieldRoundTrip(dial, p.current, i, f);
      var q := p.(current := With(p.current, i, f), seen := p.seen + {f});
      assert Step(dial, p, Entry(Name(f), FieldText(i, f))) == Ok(q);
      forall g | g in fs[1..] ensures g !in q.seen && Printable(i, g) {
        assert g in fs;
      }
      FieldsStep(dial, q, i, fs[1..]);
      assert q.seen + (set g | g in fs[1..]) == p.seen + set g | g in fs;
    }
  }

  predicate Agree(a: Instruction, b: Instruction, f: FieldName) {
    match f
    case Class => a.klass == b.klass
    case ItsGuarantee => a.guarantee == b.guarantee
    case ConfigKey => a.configKey == b.configKey
    case Artifact => a.artifact == b.artifact
    case Revision => a.revision == b.revision
    case Generation => a.generation == b.generation
    case Schema => a.schema == b.schema
    case SchemaVersion => a.schemaVersion == b.schemaVersion
    case ItsDigest => a.digest == b.digest
    case Size => a.size == b.size
    case Requires => a.requirement == b.requirement
    case MediaType => a.mediaType == b.mediaType
    case Producer => a.producer == b.producer
    case Source => a.source == b.source
    case Endpoint => a.endpoint == b.endpoint
  }

  lemma WithAgrees(c: Instruction, i: Instruction, f: FieldName, g: FieldName)
    ensures if f == g then Agree(With(c, i, f), i, g) else Agree(With(c, i, f), c, g)
    ensures With(c, i, f).target == c.target
  {
  }

  lemma {:induction false} MergedAgrees(c: Instruction, i: Instruction, fs: seq<FieldName>, g: FieldName)
    ensures if g in fs then Agree(Merged(c, i, fs), i, g) else Agree(Merged(c, i, fs), c, g)
    ensures Merged(c, i, fs).target == c.target
    decreases |fs|
  {
    hide With;
    if fs == [] {
      AgreeSelf(c, g);
    } else {
      WithAgrees(c, i, fs[0], g);
      MergedAgrees(With(c, i, fs[0]), i, fs[1..], g);
      AgreeChain(Merged(c, i, fs), With(c, i, fs[0]), c, i, g);
    }
  }

  lemma AgreeSelf(c: Instruction, g: FieldName)
    ensures Agree(c, c, g)
  {
  }

  lemma AgreeChain(a: Instruction, b: Instruction, c: Instruction, i: Instruction, g: FieldName)
    ensures Agree(a, b, g) && Agree(b, c, g) ==> Agree(a, c, g)
    ensures Agree(a, b, g) && Agree(b, i, g) ==> Agree(a, i, g)
  {
  }

  lemma AgreeEverywhere(a: Instruction, b: Instruction)
    requires a.target == b.target && forall g :: Agree(a, b, g)
    ensures a == b
  {
    assert Agree(a, b, Class) && Agree(a, b, ItsGuarantee) && Agree(a, b, ConfigKey) && Agree(a, b, Artifact);
    assert Agree(a, b, Revision) && Agree(a, b, Generation) && Agree(a, b, Schema) && Agree(a, b, SchemaVersion);
    assert Agree(a, b, ItsDigest) && Agree(a, b, Size) && Agree(a, b, Requires) && Agree(a, b, MediaType);
    assert Agree(a, b, Producer) && Agree(a, b, Source) && Agree(a, b, Endpoint);
  }

  predicate Optional(f: FieldName) {
    f == Producer || f == Source || f == Endpoint
  }

  lemma AlwaysFacts()
    ensures forall f :: f in Always() <==> !Optional(f)
    ensures DistinctFields(Always())
  {
    var p := Always();
    assert p[0] == Class && p[1] == ItsGuarantee && p[2] == ConfigKey && p[3] == Artifact && p[4] == Revision && p[5] == Generation;
    assert p[6] == Schema && p[7] == SchemaVersion && p[8] == ItsDigest && p[9] == Size && p[10] == Requires && p[11] == MediaType;
    forall f ensures f in p <==> !Optional(f) {}
  }

  lemma DistinctAppend(fs: seq<FieldName>, more: seq<FieldName>, f: FieldName)
    requires DistinctFields(fs) && f !in fs && (more == [] || more == [f])
    ensures DistinctFields(fs + more)
  {
  }

  /** An optional field is printed when it is set, every other one always. */
  lemma InPrinted(i: Instruction, f: FieldName)
    ensures f in Printed(i) <==> !Optional(f) || (f == Producer && i.producer != "") || (f == Source && i.source != "") || (f == Endpoint && i.endpoint != "")
  {
    hide Always;
    AlwaysFacts();
  }

  lemma PrintedDistinct(i: Instruction)
    ensures DistinctFields(Printed(i))
  {
    hide DistinctFields, Always;
    AlwaysFacts();
    var always := Always();
    var a := if i.producer != "" then [Producer] else [];
    var b := if i.source != "" then [Source] else [];
    var c := if i.endpoint != "" then [Endpoint] else [];
    DistinctAppend(always, a, Producer);
    DistinctAppend(always + a, b, Source);
    DistinctAppend(always + a + b, c, Endpoint);
  }

  lemma PrintedFacts(i: Instruction)
    ensures DistinctFields(Printed(i)) && (forall f :: f in Printed(i) ==> Printable(i, f))
    ensures MANDATORY <= set f | f in Printed(i)
    ensures forall f :: f !in Printed(i) ==> Optional(f)
    ensures Producer in Printed(i) || i.producer == ""
    ensures Source in Printed(i) || i.source == ""
    ensures Endpoint in Printed(i) || i.endpoint == ""
  {
    hide DistinctFields, Printed;
    PrintedDistinct(i);
    forall f { InPrinted(i, f); }
  }

  /** All the printed fields of an instruction, set on a blank one, give the instruction back. */
  lemma MergedBack(i: Instruction)
    ensures Merged(Blank(i.target), i, Printed(i)) == i
  {
    hide Merged, Printed;
    var m := Merged(Blank(i.target), i, Printed(i));
    PrintedFacts(i);
    forall g ensures Agree(m, i, g) {
      MergedAgrees(Blank(i.target), i, Printed(i), g);
      if g !in Printed(i) { BlankDefaults(i, m, g); }
    }
    MergedAgrees(Blank(i.target), i, Printed(i), Class);
    AgreeEverywhere(m, i);
  }

  lemma BlankDefaults(i: Instruction, m: Instruction, g: FieldName)
    requires Agree(m, Blank(i.target), g) && Optional(g)
    requires (g == Producer ==> i.producer == "") && (g == Source ==> i.source == "") && (g == Endpoint ==> i.endpoint == "")
    ensures Agree(m, i, g)
  {
  }

  lemma TargetAndEnd()
    ensures KeywordOf("target") == Target && KeywordOf("end") == End && KeywordOf("cf-plan") == Header
    ensures KeywordOf("set-id") == SetId && KeywordOf("rollout-set") == RolloutSet
  {
  }

  /** Between blocks: the header and the set id were read, and these instructions. */
  predicate Between(p: Parser, plan: DeploymentPlan, done: seq<Instruction>) {
    && p.haveHeader && !p.inTarget && p.plan == plan.(instructions := done)
    && p.targets == set i | i in done :: i.target
  }

  function AfterBlock(p: Parser, i: Instruction): Parser {
    p.(plan := p.plan.(instructions := p.plan.instructions + [i]), targets := p.targets + {i.target}, inTarget := false,
       current := i, seen := set f | f in Printed(i))
  }

  lemma BlockStep(dial: Dialing, p: Parser, i: Instruction)
    requires InstructionOk(dial, i) && p.haveHeader && !p.inTarget && p.plan.setId != UNSET
    requires |p.plan.instructions| < MAX_TARGETS && i.target !in p.targets
    ensures Steps(dial, p, BlockEntries(i)) == Ok(AfterBlock(p, i))
  {
    hide Steps, FieldEntries, Printed, Merged, KeywordOf, IsIdentifier, Clean;
    TargetAndEnd();
    NotUnset(i.target);
    var opened_ := p.(current := Blank(i.target), seen := {}, inTarget := true);
    var a, b, c := [Entry("target", i.target)], FieldEntries(i, Printed(i)), [Entry("end", "")];
    OneStep(dial, p, a[0]);
    assert Step(dial, p, a[0]) == Ok(opened_);
    PrintedFacts(i);
    FieldsStep(dial, opened_, i, Printed(i));
    MergedBack(i);
    var filled := opened_.(current := i, seen := {} + set f | f in Printed(i));
    assert {} + (set f | f in Printed(i)) == set f | f in Printed(i);
    OneStep(dial, filled, c[0]);
    assert Step(dial, filled, c[0]) == Ok(AfterBlock(p, i));
    StepsConcat(dial, p, a, b);
    StepsConcat(dial, p, a + b, c);
  }

  lemma {:induction false} BlocksStep(dial: Dialing, p: Parser, plan: DeploymentPlan, n: nat)
    requires PlanOk(dial, plan) && n <= |plan.instructions| && Between(p, plan, plan.instructions[..n])
    ensures Steps(dial, p, AllEntries(plan.instructions[n..])).Ok?
    ensures Between(Steps(dial, p, AllEntries(plan.instructions[n..])).value, plan, plan.instructions)
    decreases |plan.instructions| - n
  {
    hide Steps, BlockEntries, InstructionOk, Printed, IsIdentifier;
    var all := plan.instructions;
    if n == |all| {
      assert all[n..] == [] && all[..n] == all;
      NoSteps(dial, p);
    } else {
      var i := all[n];
      NotUnset(plan.setId);
      FreshTarget(all, n);
      BlockStep(dial, p, i);
      var q := AfterBlock(p, i);
      assert all[..n + 1] == all[..n] + [i];
      assert q.targets == set x | x in all[..n + 1] :: x.target;
      BlocksStep(dial, q, plan, n + 1);
      assert all[n..][0] == i && all[n..][1..] == all[n + 1..];
      StepsConcat(dial, p, BlockEntries(i), AllEntries(all[n + 1..]));
    }
  }

  lemma FreshTarget(all: seq<Instruction>, n: nat)
    requires DistinctTargets(all) && n < |all|
    ensures all[n].target !in set x | x in all[..n] :: x.target
  {
    forall x | x in all[..n] ensures x.target != all[n].target {
      var a :| 0 <= a < n && all[..n][a] == x;
    }
  }

  lemma NoSteps(dial: Dialing, p: Parser)
    ensures Steps(dial, p, []) == Ok(p)
  {
  }

  lemma HeaderStep(dial: Dialing, plan: DeploymentPlan)
    requires PlanOk(dial, plan)
    ensures var es := [Entry("cf-plan", "1"), Entry("set-id", plan.setId)]
                      + if plan.rolloutSet != UNSET then [Entry("rollout-set", plan.rolloutSet)] else [];
            Steps(dial, START, es).Ok? && Between(Steps(dial, START, es).value, plan, [])
  {
    hide Steps, KeywordOf, IsIdentifier, InstructionOk, NumberFrom;
    TargetAndEnd();
    OneIsOne();
    NotUnset(plan.setId);
    var p1 := START.(haveHeader := true);
    var p2 := p1.(plan := p1.plan.(setId := plan.setId));
    var a, b := [Entry("cf-plan", "1")], [Entry("set-id", plan.setId)];
    OneStep(dial, START, a[0]);
    OneStep(dial, p1, b[0]);
    StepsConcat(dial, START, a, b);
    assert a + b == [Entry("cf-plan", "1"), Entry("set-id", plan.setId)];
    if plan.rolloutSet != UNSET {
      var c := [Entry("rollout-set", plan.rolloutSet)];
      OneStep(dial, p2, c[0]);
      StepsConcat(dial, START, a + b, c);
    } else {
      assert a + b + [] == a + b;
    }
  }

  lemma OneIsOne()
    ensures NumberFrom("1") == Ok(1)
  {
    assert Decimal(1) == "1";
    NumberRoundTrip(1);
  }

  predicate RenderingFits(p: DeploymentPlan) {
    |Render(p)| <= MAX_PLAN_BYTES && LinesFit(PlanLines(p) + [""])
  }

  /** Every well-formed plan whose rendering is within the size and line limits is parsed back from it. */
  lemma RenderParses(dial: Dialing, p: DeploymentPlan)
    requires PlanOk(dial, p) && RenderingFits(p)
    ensures Parse(dial, Render(p)) == Ok(p)
  {
    hide Steps, Entries, AllEntries, PlanLines, InstructionOk, Between, Split, Join, IsIdentifier, LinesFit;
    PlanRead(dial, p);
    SplitJoin(PlanLines(p));
    EntriesConcat(PlanLines(p), [""]);
    BlankLine();
    HeaderStep(dial, p);
    var header := [Entry("cf-plan", "1"), Entry("set-id", p.setId)]
                  + if p.rolloutSet != UNSET then [Entry("rollout-set", p.rolloutSet)] else [];
    var q := Steps(dial, START, header).value;
    assert p.instructions[..0] == [] && p.instructions[0..] == p.instructions;
    BlocksStep(dial, q, p, 0);
    StepsConcat(dial, START, header, AllEntries(p.instructions));
    assert Entries(Split(Render(p))) == header + AllEntries(p.instructions);
    NotUnset(p.setId);
    Finished(Steps(dial, q, AllEntries(p.instructions)).value, p);
  }

  lemma Finished(q: Parser, p: DeploymentPlan)
    requires Between(q, p, p.instructions) && p.setId != UNSET && p.instructions != []
    ensures Finish(q) == Ok(p)
  {
  }

  lemma BlankLine()
    ensures Entries([""]) == []
  {
    assert [""][1..] == [];
  }

  // ---- What the parser accepts ----

  /** Half-read: every field seen so far is acceptable, the others are still blank. */
  predicate CurrentOk(dial: Dialing, c: Instruction, seen: set<FieldName>) {
    && IsIdentifier(c.target) && |c.digest| == 32
    && (ConfigKey in seen ==> IsIdentifier(c.configKey)) && (Artifact in seen ==> IsIdentifier(c.artifact))
    && (Schema in seen ==> IsIdentifier(c.schema))
    && c.mediaType != "" && |c.mediaType| <= MAX_MEDIA_TYPE && Clean(c.mediaType)
    && |c.producer| <= MAX_PRODUCER && Clean(c.producer) && |c.source| <= MAX_SOURCE && Clean(c.source)
    && Clean(c.endpoint) && (c.endpoint == "" || dial.dialable(c.endpoint))
  }

  predicate ParserOk(dial: Dialing, p: Parser) {
    && (p.plan.setId == UNSET || IsIdentifier(p.plan.setId)) && (p.plan.rolloutSet == UNSET || IsIdentifier(p.plan.rolloutSet))
    && |p.plan.instructions| + (if p.inTarget then 1 else 0) <= MAX_TARGETS
    && (forall i :: i in p.plan.instructions ==> InstructionOk(dial, i))
    && DistinctTargets(p.plan.instructions) && (forall i :: i in p.plan.instructions ==> i.target in p.targets)
    && (p.inTarget ==> CurrentOk(dial, p.current, p.seen))
  }

  lemma SetFieldOk(dial: Dialing, c: Instruction, seen: set<FieldName>, f: FieldName, v: string)
    requires CurrentOk(dial, c, seen) && Clean(v) && SetField(dial, c, f, v).Ok?
    ensures CurrentOk(dial, SetField(dial, c, f, v).value, seen + {f})
  {
    hide IsIdentifier, Clean, NumberFrom, ClassName, GuaranteeName, RequirementName;
  }

  lemma BlankOk(dial: Dialing, id: Id)
    requires IsIdentifier(id)
    ensures CurrentOk(dial, Blank(id), {})
  {
    hide IsIdentifier;
  }

  lemma FinishOk(dial: Dialing, p: Parser)
    requires ParserOk(dial, p) && p.inTarget && FinishTarget(p).Ok?
    ensures ParserOk(dial, FinishTarget(p).value)
  {
    hide IsIdentifier, Clean;
    assert ConfigKey in MANDATORY && Artifact in MANDATORY && Schema in MANDATORY;
    var all, more := p.plan.instructions, p.plan.instructions + [p.current];
    forall i | i in more ensures InstructionOk(dial, i) {}
    forall a, b | 0 <= a < b < |more| ensures more[a].target != more[b].target {
      assert all[a] in all;
    }
  }

  lemma StartOk(dial: Dialing, p: Parser, v: string)
    requires ParserOk(dial, p) && !p.inTarget && StartTarget(p, v).Ok?
    ensures ParserOk(dial, StartTarget(p, v).value)
  {
    hide IsIdentifier, CurrentOk, InstructionOk;
    BlankOk(dial, v);
  }

  lemma StepOk(dial: Dialing, p: Parser, e: Entry)
    requires ParserOk(dial, p) && Clean(e.value) && Step(dial, p, e).Ok?
    ensures ParserOk(dial, Step(dial, p, e).value)
  {
    hide IsIdentifier, Clean, KeywordOf, SetField, CurrentOk, InstructionOk, FinishTarget, StartTarget, NumberFrom;
    match KeywordOf(e.keyword)
    case Target =>
      if p.inTarget {
        if FinishTarget(p).Ok? {
          FinishOk(dial, p);
          Closed(p);
          if StartTarget(FinishTarget(p).value, e.value).Ok? { StartOk(dial, FinishTarget(p).value, e.value); }
        }
      } else if StartTarget(p, e.value).Ok? {
        StartOk(dial, p, e.value);
      }
    case End => if p.inTarget && FinishTarget(p).Ok? { FinishOk(dial, p); }
    case Names(f) =>
      if p.inTarget && SetField(dial, p.current, f, e.value).Ok? { SetFieldOk(dial, p.current, p.seen, f, e.value); }
    case _ =>
  }

  lemma Closed(p: Parser)
    ensures FinishTarget(p).Ok? ==> !FinishTarget(p).value.inTarget
  {
  }

  lemma {:induction false} StepsOk(dial: Dialing, p: Parser, es: seq<Entry>)
    requires ParserOk(dial, p) && (forall e :: e in es ==> Clean(e.value)) && Steps(dial, p, es).Ok?
    ensures ParserOk(dial, Steps(dial, p, es).value)
    decreases |es|
  {
    hide ParserOk, Step, Clean;
    if es != [] {
      assert es[0] in es;
      StepOk(dial, p, es[0]);
      StepsOk(dial, Step(dial, p, es[0]).value, es[1..]);
    }
  }

  lemma {:induction false} EntriesClean(lines: seq<string>, e: Entry)
    requires NoNewlines(lines) && e in Entries(lines)
    ensures Clean(e.value)
    decreases |lines|
  {
    hide Trim, IsSkipped, Tokenize, FreeOf;
    var t := Trim(lines[0]);
    if !IsSkipped(t) && e == Tokenize(t) {
      assert lines[0] in lines;
      ValueClean(lines[0]);
    } else {
      EntriesClean(lines[1..], e);
    }
  }

  lemma ValueClean(line: string)
    requires FreeOf(line, '\n')
    ensures Clean(Tokenize(Trim(line)).value)
  {
    hide Trim, IndexOf, FreeOf;
    TrimIsTrimmed(line);
    var t := Trim(line);
    EmptyClean();
    if IndexOf(t, ' ').Some? {
      SuffixFree(t, IndexOf(t, ' ').value + 1, '\n');
      TrimIsTrimmed(t[IndexOf(t, ' ').value + 1..]);
    }
  }

  lemma EmptyClean()
    ensures Clean("")
  {
  }

  lemma SuffixFree(s: string, n: nat, c: char)
    requires FreeOf(s, c) && n <= |s|
    ensures FreeOf(s[n..], c)
  {
  }

  /** Everything the parser accepts is a well-formed plan. */
  lemma ParsedIsOk(dial: Dialing, text: string)
    requires Parse(dial, text).Ok?
    ensures PlanOk(dial, Parse(dial, text).value)
  {
    hide Steps, Entries, Split, InstructionOk, CurrentOk, IsIdentifier, Clean;
    var es := Entries(Split(text));
    forall e | e in es ensures Clean(e.value) { EntriesClean(Split(text), e); }
    StepsOk(dial, START, es);
  }

  /** The law of the format: for every text the parser accepts, printing the plan and parsing it again gives the same
      plan, as long as the printed form is within the size and line limits; otherwise it is refused. */
  lemma PrintingIsFaithful(dial: Dialing, text: string)
    requires Parse(dial, text).Ok?
    ensures var p := Parse(dial, text).value; Parse(dial, Render(p)) == Ok(p) <==> RenderingFits(p)
  {
    hide Steps, Entries, PlanLines, PlanOk, Finish, Split, Join;
    ParsedIsOk(dial, text);
    var p := Parse(dial, text).value;
    PlanRead(dial, p);
    SplitJoin(PlanLines(p));
    if RenderingFits(p) { RenderParses(dial, p); }
  }

  // ---- Layout ----

  /** The text of these lines is within what the format permits. */
  predicate Fitting(lines: seq<string>) {
    |Join(lines)| <= MAX_PLAN_BYTES && LinesFit(lines + [""]) && forall l :: l in lines ==> FreeOf(l, '\n')
  }

  lemma ParseOfLines(dial: Dialing, lines: seq<string>)
    requires Fitting(lines)
    ensures Parse(dial, Join(lines)) == match Steps(dial, START, Entries(lines)) case Err(x) => Err(x) case Ok(p) => Finish(p)
  {
    hide Steps, Finish, Trim, Join, Split;
    SplitJoin(lines);
    EntriesConcat(lines, [""]);
    OneEntry("");
    TrimmedStays("");
    assert Entries(lines) + [] == Entries(lines);
  }

  /** Blank lines and comments, however indented, are ignored wherever they stand. */
  lemma CommentsAreIgnored(dial: Dialing, before: seq<string>, indent: string, comment: string, after: seq<string>)
    requires Blanks(indent) && (comment == "" || comment[0] == '#')
    requires Fitting(before + [indent + comment] + after) && Fitting(before + after)
    ensures Parse(dial, Join(before + [indent + comment] + after)) == Parse(dial, Join(before + after))
  {
    hide Parse, Fitting, Steps, Finish;
    var l := indent + comment;
    ParseOfLines(dial, before + [l] + after);
    ParseOfLines(dial, before + after);
    EntriesConcat(before + [l], after);
    EntriesConcat(before, [l]);
    EntriesConcat(before, after);
    OneEntry(l);
    TrimLeftSkips(indent, comment);
    assert IsSkipped(Trim(l)) by {
      if comment != "" {
        assert TrimLeft(comment) == comment;
        TrimRightFirst(comment);
      }
    }
    assert Entries(before) + [] == Entries(before);
  }

  lemma {:induction false} TrimRightFirst(s: string)
    requires s != "" && !IsBlank(s[0])
    ensures TrimRight(s) != "" && TrimRight(s)[0] == s[0]
    decreases |s|
  {
    if IsBlank(s[|s| - 1]) { TrimRightFirst(s[..|s| - 1]); }
  }

  /** Nor does the indentation of a line matter, or what blanks follow it. */
  lemma BlanksAreIgnored(dial: Dialing, before: seq<string>, pre: string, line: string, post: string, after: seq<string>)
    requires Blanks(pre) && Blanks(post)
    requires Fitting(before + [pre + line + post] + after) && Fitting(before + [line] + after)
    ensures Parse(dial, Join(before + [pre + line + post] + after)) == Parse(dial, Join(before + [line] + after))
  {
    hide Parse, Fitting, Steps, Finish, Trim, Join;
    var l := pre + line + post;
    ParseOfLines(dial, before + [l] + after);
    ParseOfLines(dial, before + [line] + after);
    EntriesConcat(before + [l], after);
    EntriesConcat(before, [l]);
    EntriesConcat(before + [line], after);
    EntriesConcat(before, [line]);
    OneEntry(l);
    OneEntry(line);
    TrimAround(pre, line, post);
  }

  /** What a field line does to a block depends on nothing but the line. */
  lemma SetsItsField(dial: Dialing, c: Instruction, d: Instruction, f: FieldName, v: string)
    ensures SetField(dial, c, f, v).Ok? ==>
              SetField(dial, d, f, v) == Result.Ok(With(d, SetField(dial, c, f, v).value, f))
  {
    hide ClassName, GuaranteeName, RequirementName, Number, Identifier, FromHex;
  }

  lemma WithCommutes(c: Instruction, i: Instruction, j: Instruction, f: FieldName, g: FieldName)
    requires f != g
    ensures With(With(c, i, f), j, g) == With(With(c, j, g), i, f)
  {
  }

  /** Two field lines next to each other can be swapped. */
  lemma FieldsSwap(dial: Dialing, p: Parser, a: Entry, b: Entry)
    requires KeywordOf(a.keyword).Names? && KeywordOf(b.keyword).Names? && KeywordOf(a.keyword) != KeywordOf(b.keyword)
    ensures Steps(dial, p, [a, b]).Ok? ==> Steps(dial, p, [b, a]) == Steps(dial, p, [a, b])
  {
    hide KeywordOf, SetField, With;
    if Steps(dial, p, [a, b]).Ok? {
      TwoSteps(dial, p, a, b);
      TwoSteps(dial, p, b, a);
      var f, g := KeywordOf(a.keyword).field, KeywordOf(b.keyword).field;
      var i := SetField(dial, p.current, f, a.value).value;
      var j := SetField(dial, i, g, b.value).value;
      SetsItsField(dial, i, p.current, g, b.value);
      SetsItsField(dial, p.current, p.current, f, a.value);
      var first := SetField(dial, p.current, g, b.value).value;
      SetsItsField(dial, p.current, first, f, a.value);
      SetsItsField(dial, i, i, g, b.value);
      WithCommutes(p.current, i, j, f, g);
      assert p.seen + {f} + {g} == p.seen + {g} + {f};
    }
  }

  lemma TwoSteps(dial: Dialing, p: Parser, a: Entry, b: Entry)
    ensures Steps(dial, p, [a, b]) == match Step(dial, p, a) case Err(x) => Err(x) case Ok(q) => Step(dial, q, b)
  {
    hide Step;
    assert [a, b][1..] == [b];
    match Step(dial, p, a)
    case Err(_) =>
    case Ok(q) => OneStep(dial, q, b);
  }

  /** The field a line sets, if it is such a line. */
  function FieldOf(line: string): Option<FieldName> {
    if IsSkipped(Trim(line)) then None
    else
      match KeywordOf(Tokenize(Trim(line)).keyword)
      case Names(f) => Some(f)
      case _ => None
  }

  /** The order of the fields in a block is free. */
  lemma FieldOrderIsFree(dial: Dialing, before: seq<string>, a: string, b: string, after: seq<string>)
    requires FieldOf(a).Some? && FieldOf(b).Some? && FieldOf(a) != FieldOf(b)
    requires Fitting(before + [a, b] + after) && Fitting(before + [b, a] + after)
    ensures Parse(dial, Join(before + [a, b] + after)).Ok? ==>
              Parse(dial, Join(before + [b, a] + after)) == Parse(dial, Join(before + [a, b] + after))
  {
    hide Parse, Fitting, Steps, Finish, Trim, Tokenize, KeywordOf, IsSkipped;
    ParseOfLines(dial, before + [a, b] + after);
    ParseOfLines(dial, before + [b, a] + after);
    var x, y := Tokenize(Trim(a)), Tokenize(Trim(b));
    InTheMiddle(dial, before, [a, b], after);
    InTheMiddle(dial, before, [b, a], after);
    TwoEntries(a, b);
    TwoEntries(b, a);
    if Steps(dial, START, Entries(before)).Ok? { FieldsSwap(dial, Steps(dial, START, Entries(before)).value, x, y); }
  }

  lemma TwoEntries(a: string, b: string)
    requires !IsSkipped(Trim(a)) && !IsSkipped(Trim(b))
    ensures Entries([a, b]) == [Tokenize(Trim(a)), Tokenize(Trim(b))]
  {
    hide Trim, Tokenize, IsSkipped;
    assert [a, b] == [a] + [b];
    EntriesConcat([a], [b]);
    OneEntry(a);
    OneEntry(b);
  }

  lemma InTheMiddle(dial: Dialing, before: seq<string>, some: seq<string>, after: seq<string>)
    ensures Steps(dial, START, Entries(before + some + after)) ==
            match Steps(dial, START, Entries(before))
            case Err(x) => Err(x)
            case Ok(p) =>
              match Steps(dial, p, Entries(some))
              case Err(x) => Err(x)
              case Ok(q) => Steps(dial, q, Entries(after))
  {
    hide Steps, Entries;
    EntriesConcat(before + some, after);
    EntriesConcat(before, some);
    StepsConcat(dial, START, Entries(before) + Entries(some), Entries(after));
    StepsConcat(dial, START, Entries(before), Entries(some));
  }

  /** A field given twice in one block is refused, whatever fields and comments stand between. */
  lemma RepeatedFieldIsRefused(dial: Dialing, before: seq<string>, a: string, between: seq<string>, b: string, after: seq<string>)
    requires FieldOf(a).Some? && FieldOf(a) == FieldOf(b)
    requires forall l :: l in between ==> IsSkipped(Trim(l)) || FieldOf(l).Some?
    requires Fitting(before + ([a] + between + [b]) + after)
    ensures Parse(dial, Join(before + ([a] + between + [b]) + after)).Err?
  {
    hide Parse, Fitting, Steps, Finish, Trim, Tokenize, KeywordOf, IsSkipped;
    ParseOfLines(dial, before + ([a] + between + [b]) + after);
    InTheMiddle(dial, before, [a] + between + [b], after);
    if Steps(dial, START, Entries(before)).Ok? {
      var p := Steps(dial, START, Entries(before)).value;
      EntriesConcat([a] + between, [b]);
      EntriesConcat([a], between);
      OneEntry(a);
      OneEntry(b);
      StepsConcat(dial, p, Entries([a]) + Entries(between), Entries([b]));
      StepsConcat(dial, p, Entries([a]), Entries(between));
      OneStep(dial, p, Tokenize(Trim(a)));
      if Step(dial, p, Tokenize(Trim(a))).Ok? {
        var q := Step(dial, p, Tokenize(Trim(a))).value;
        StaysSeen(dial, q, between, FieldOf(a).value);
        if Steps(dial, q, Entries(between)).Ok? { OneStep(dial, Steps(dial, q, Entries(between)).value, Tokenize(Trim(b))); }
      }
    }
  }

  lemma {:induction false} StaysSeen(dial: Dialing, p: Parser, lines: seq<string>, f: FieldName)
    requires p.haveHeader && p.inTarget && f in p.seen
    requires forall l :: l in lines ==> IsSkipped(Trim(l)) || FieldOf(l).Some?
    ensures Steps(dial, p, Entries(lines)).Ok? ==>
              var q := Steps(dial, p, Entries(lines)).value; q.haveHeader && q.inTarget && f in q.seen
    decreases |lines|
  {
    hide Trim, Tokenize, KeywordOf, IsSkipped, SetField;
    if lines != [] {
      var l := lines[0];
      var rest := Entries(lines[1..]);
      if IsSkipped(Trim(l)) {
        assert [] + rest == rest;
        StaysSeen(dial, p, lines[1..], f);
      } else {
        var e := Tokenize(Trim(l));
        assert ([e] + rest)[0] == e && ([e] + rest)[1..] == rest;
        assert FieldOf(l).Some?;
        if Step(dial, p, e).Ok? { StaysSeen(dial, Step(dial, p, e).value, lines[1..], f); }
      }
    }
  }
}
