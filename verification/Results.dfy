/** The result file of the sink, and when the repository's own parser reads it back. */
module Results {
  import opened Payload
  import opened Frames
  import opened Json
  import opened JsonText
  import opened JsonMeaning
  import JsonTheorems
  import JsonParsing

  const MAX_MESSAGES := 1_000_000_000
  const MAX_PUBLISH_INTERVAL_US := 60_000_000
  const MAX_DEADLINE_SECONDS := 86_400

  datatype CommonOptions = CommonOptions(
    role: Role, profile: Profile, messages: nat, warmupMessages: nat, publishIntervalUs: nat, deadlineSeconds: nat,
    clockMode: ClockMode, runId: string, runtimeDir: string, output: string)

  datatype ResultCounts = ResultCounts(
    offered: nat, received: nat, duplicate: nat, outOfOrder: nat, corrupt: nat, lost: nat)

  datatype Distribution = Distribution(samples: nat, p50: nat, p95: nat, p99: nat, p999: nat, maximum: nat)

  /** A measured rate; a double that is not a number or infinite is NotFinite. */
  datatype Throughput = NotFinite | Finite(perSecond: real)

  datatype SinkResult = SinkResult(
    backend: string, options: CommonOptions, counts: ResultCounts, latencyNs: Distribution, elapsedNs: nat,
    throughput: Throughput, payloadBytes: nat, encodedBytes: nat, outcome: string, error: string,
    backendDetails: string)

  /** What the machine reports about its clock. */
  datatype Host = Host(clockName: string, resolutionNs: nat, bootId: string)

  function RoleName(role: Role): string {
    match role
    case Perception => "perception"
    case Prediction => "prediction"
    case Planning => "planning"
    case Control => "control"
    case Guardian => "guardian"
    case Canbus => "canbus"
  }

  function ProfileName(profile: Profile): string {
    match profile
    case Small => "small"
    case Medium => "medium"
    case Large => "large"
  }

  function ClockModeName(mode: ClockMode): string {
    match mode
    case SameHost => "same-host"
    case IndependentHosts => "independent-hosts"
  }

  predicate NonEmptyWithoutNul(s: string) {
    s != [] && '\0' !in s
  }

  predicate ValidCommonOptions(o: CommonOptions) {
    && 1 <= o.messages <= MAX_MESSAGES && o.warmupMessages <= MAX_MESSAGES
    && o.publishIntervalUs <= MAX_PUBLISH_INTERVAL_US && 1 <= o.deadlineSeconds <= MAX_DEADLINE_SECONDS
    && NonEmptyWithoutNul(o.runId) && NonEmptyWithoutNul(o.runtimeDir) && NonEmptyWithoutNul(o.output)
  }

  // ----- Trimming -----

  predicate IsSpace(c: char) {
    c == ' ' || c == '\t' || c == '\n' || c == '\U{000B}' || c == '\U{000C}' || c == '\r'
  }

  ghost function TrimFront(s: string): string {
    if s != [] && IsSpace(s[0]) then TrimFront(s[1..]) else s
  }

  ghost function TrimBack(s: string): string {
    if s != [] && IsSpace(s[|s| - 1]) then TrimBack(s[..|s| - 1]) else s
  }

  method Trim(text: string) returns (r: string)
    ensures r == TrimBack(TrimFront(text))
    ensures r != [] ==> !IsSpace(r[0]) && !IsSpace(r[|r| - 1])
  {
    var begin := 0;
    while begin < |text| && IsSpace(text[begin])
      invariant begin <= |text| && TrimFront(text[begin..]) == TrimFront(text)
    {
      assert text[begin..][1..] == text[begin + 1..];
      begin := begin + 1;
    }
    var end := |text|;
    assert text[begin..end] == text[begin..] == TrimFront(text);
    while end > begin && IsSpace(text[end - 1])
      invariant begin <= end <= |text| && TrimBack(text[begin..end]) == TrimBack(TrimFront(text))
    {
      assert text[begin..end][..end - begin - 1] == text[begin..end - 1];
      end := end - 1;
    }
    r := text[begin..end];
  }

  // ----- Outcome -----

  predicate CleanCounts(c: ResultCounts) {
    c.duplicate == 0 && c.outOfOrder == 0 && c.corrupt == 0 && c.lost == 0 && c.received == c.offered
  }

  method CountFailure(c: ResultCounts) returns (failure: string)
    ensures failure == "" <==> CleanCounts(c)
  {
    if c.duplicate != 0 { return "duplicate messages detected"; }
    if c.outOfOrder != 0 { return "out-of-order messages detected"; }
    if c.corrupt != 0 { return "corrupt messages detected"; }
    if c.lost != 0 { return "lost messages detected"; }
    if c.received != c.offered { return "offered and received counts differ"; }
    return "";
  }

  /** Nothing at all speaks against the result. */
  ghost predicate Successful(result: SinkResult, detailsValid: bool) {
    && result.outcome == "success" && result.error == "" && result.backend != "" && CleanCounts(result.counts)
    && detailsValid && result.throughput.Finite? && result.throughput.perSecond >= 0.0
  }

  const BAD_DETAILS := "invalid backend_details JSON object"
  const BAD_THROUGHPUT := "invalid throughput"

  predicate ValidThroughput(t: Throughput) {
    t.Finite? && t.perSecond >= 0.0
  }

  ghost predicate Mentions(error: string, fault: string) {
    exists before, after :: error == before + fault + after
  }

  lemma MentionsLast(before: string, fault: string)
    ensures Mentions(before + fault, fault)
  {
    assert before + fault == before + fault + [];
  }

  lemma MentionsStill(error: string, more: string, fault: string)
    requires Mentions(error, fault)
    ensures Mentions(error + more, fault)
  {
    var before, after :| error == before + fault + after;
    assert error + more == before + fault + (after + more);
  }

  /** A result counts as a success exactly when nothing at all speaks against it; otherwise it is a failure, and
      every fault found here is explained. */
  method EffectiveOutcome(result: SinkResult, detailsValid: bool) returns (outcome: string, error: string)
    ensures outcome == "success" || outcome == "failure"
    ensures outcome == "success" <==> Successful(result, detailsValid)
    ensures outcome == "success" ==> error == ""
    ensures outcome == "failure" && error == "" ==> result.outcome != "success"
    ensures result.error <= error
    ensures CleanCounts(result.counts) && detailsValid && result.backend != "" && ValidThroughput(result.throughput) ==>
              error == result.error
    ensures !CleanCounts(result.counts) || result.backend == "" ==> error != ""
    ensures !detailsValid ==> Mentions(error, BAD_DETAILS)
    ensures !ValidThroughput(result.throughput) ==> Mentions(error, BAD_THROUGHPUT)
  {
    error := result.error;
    outcome := result.outcome;
    var countFailure := CountFailure(result.counts);
    if countFailure != "" {
      outcome := "failure";
      if error == "" {
        error := countFailure;
      }
    }
    if !detailsValid {
      outcome := "failure";
      if error != "" {
        error := error + "; ";
      }
      MentionsLast(error, BAD_DETAILS);
      error := error + BAD_DETAILS;
    }
    if outcome != "success" || error != "" || result.backend == "" {
      outcome := "failure";
      if result.backend == "" && error == "" {
        error := "backend must be non-empty";
      }
    }
    if result.throughput.NotFinite? || result.throughput.perSecond < 0.0 {
      outcome := "failure";
      ghost var found := error;
      if error != "" {
        error := error + "; ";
      }
      if !detailsValid {
        MentionsStill(found, error[|found|..] + BAD_THROUGHPUT, BAD_DETAILS);
        assert error + BAD_THROUGHPUT == found + (error[|found|..] + BAD_THROUGHPUT);
      }
      MentionsLast(error, BAD_THROUGHPUT);
      error := error + BAD_THROUGHPUT;
    }
  }

  // ----- Layout -----

  const BLOCK := Style("\n  ", "\n  ", " ", "\n")
  const NESTED := Style("\n    ", "\n    ", " ", "\n  ")
  const INLINE := Style("", " ", " ", "")
  const COMPACT := Style("", "", "", "")

  function StringText(s: string): string {
    ['"'] + PiecesText(EscapePieces(s)) + ['"']
  }

  function NameText(s: string): string {
    ['"'] + s + ['"']
  }

  function ConfigurationFields(o: CommonOptions): seq<Field> {
    [
      Field("messages", Decimal(o.messages)),
      Field("warmup_messages", Decimal(o.warmupMessages)),
      Field("publish_interval_us", Decimal(o.publishIntervalUs)),
      Field("deadline_seconds", Decimal(o.deadlineSeconds)),
      Field("clock_mode", NameText(ClockModeName(o.clockMode))),
      Field("run_id", StringText(o.runId)),
      Field("runtime_dir", StringText(o.runtimeDir)),
      Field("output", StringText(o.output))]
  }

  function ConfigurationText(o: CommonOptions): string {
    ObjectText(NESTED, ConfigurationFields(o))
  }

  function ClockFields(host: Host): seq<Field> {
    [
      Field("name", StringText(host.clockName)),
      Field("resolution_ns", Decimal(host.resolutionNs)),
      Field("boot_id", StringText(host.bootId))]
  }

  function ClockText(host: Host): string {
    ObjectText(INLINE, ClockFields(host))
  }

  function CountsFields(c: ResultCounts): seq<Field> {
    [
      Field("offered", Decimal(c.offered)),
      Field("received", Decimal(c.received)),
      Field("duplicate", Decimal(c.duplicate)),
      Field("out_of_order", Decimal(c.outOfOrder)),
      Field("corrupt", Decimal(c.corrupt)),
      Field("lost", Decimal(c.lost))]
  }

  function CountsText(c: ResultCounts): string {
    ObjectText(INLINE, CountsFields(c))
  }

  function LatencyFields(d: Distribution): seq<Field> {
    [
      Field("samples", Decimal(d.samples)),
      Field("p50", Decimal(d.p50)),
      Field("p95", Decimal(d.p95)),
      Field("p99", Decimal(d.p99)),
      Field("p99_9", Decimal(d.p999)),
      Field("max", Decimal(d.maximum))]
  }

  function LatencyText(d: Distribution): string {
    ObjectText(INLINE, LatencyFields(d))
  }

  /** Every field of a result but the last. */
  function ResultFields(result: SinkResult, host: Host, rate: string, outcome: string, error: string): seq<Field> {
    [
      Field("schema", NameText("mino.pipeline_e2e_benchmark.worker.v1")),
      Field("backend", StringText(result.backend)),
      Field("role", NameText(RoleName(result.options.role))),
      Field("profile", NameText(ProfileName(result.options.profile))),
      Field("configuration", ConfigurationText(result.options)),
      Field("clock", ClockText(host)),
      Field("counts", CountsText(result.counts)),
      Field("latency_ns", LatencyText(result.latencyNs)),
      Field("elapsed_ns", Decimal(result.elapsedNs)),
      Field("throughput_messages_per_second", rate),
      Field("payload_bytes", Decimal(result.payloadBytes)),
      Field("encoded_bytes", Decimal(result.encodedBytes)),
      Field("outcome", StringText(outcome)),
      Field("error", StringText(error))]
  }

  function ResultText(result: SinkResult, host: Host, rate: string, outcome: string, error: string, details: string)
    : string
  {
    ObjectText(BLOCK, ResultFields(result, host, rate, outcome, error) + [Field("backend_details", details)]) + "\n"
  }

  // ----- Reading one field -----

  lemma ReadsString(key: string, s: string) returns (e: Spaced)
    requires PlainText(key)
    ensures Reads(Field(key, StringText(s)), e) && Depth(e.value) == 0
  {
    hide PlainText, PiecesText;
    e := Spaced([], Str(EscapePieces(s)), []);
    NoSpace(StringText(s));
  }

  lemma ReadsName(key: string, s: string) returns (e: Spaced)
    requires PlainText(key) && PlainText(s)
    ensures Reads(Field(key, NameText(s)), e) && Depth(e.value) == 0
  {
    hide PiecesText;
    e := Spaced([], Str(PlainPieces(s)), []);
    PlainPiecesText(s);
    NoSpace(NameText(s));
  }

  lemma ReadsDecimal(key: string, n: nat) returns (e: Spaced)
    requires PlainText(key)
    ensures Reads(Field(key, Decimal(n)), e) && Depth(e.value) == 0
  {
    hide PlainText;
    e := Spaced([], Number(false, Decimal(n), None, None), []);
    DecimalIsNumber(n);
    NoSpace(Decimal(n));
  }

  lemma ReadsValue(key: string, v: Value) returns (e: Spaced)
    requires PlainText(key) && Good(v)
    ensures Reads(Field(key, Text(v)), e) && e.value == v
  {
    hide PlainText, Text, Good;
    e := Spaced([], v, []);
    NoSpace(Text(v));
  }

  lemma NoSpace(t: string)
    ensures Ws([]) && [] + t + [] == t
  {
  }

  lemma {:induction false} DeepestIsZero(es: seq<Spaced>)
    requires forall i :: 0 <= i < |es| ==> Depth(es[i].value) == 0
    ensures Deepest(es) == 0
    decreases |es|
  {
    if es != [] {
      DeepestIsZero(es[1..]);
    }
  }

  lemma {:induction false} DeepestIs(es: seq<Spaced>, k: nat)
    requires k < |es| && forall i :: 0 <= i < |es| ==> Depth(es[i].value) <= Depth(es[k].value)
    ensures Deepest(es) == Depth(es[k].value)
    decreases |es|
  {
    if k == 0 {
      DeepestAtMost(es[1..], Depth(es[0].value));
    } else {
      assert es[k] == es[1..][k - 1];
      assert Depth(es[0].value) <= Depth(es[k].value);
      DeepestIs(es[1..], k - 1);
    }
  }

  lemma {:induction false} DeepestAtMost(es: seq<Spaced>, bound: nat)
    requires forall i :: 0 <= i < |es| ==> Depth(es[i].value) <= bound
    ensures Deepest(es) <= bound
    decreases |es|
  {
    if es != [] {
      DeepestAtMost(es[1..], bound);
    }
  }

  /** A field whose text is a value nesting at most `bound` deep. */
  ghost predicate Readable(f: Field, bound: nat) {
    exists e :: Reads(f, e) && Depth(e.value) <= bound
  }

  ghost function Reading(f: Field, bound: nat): (e: Spaced)
    requires Readable(f, bound)
    ensures Reads(f, e) && Depth(e.value) <= bound
  {
    var e :| Reads(f, e) && Depth(e.value) <= bound;
    e
  }

  lemma StringField(key: string, s: string)
    requires PlainText(key)
    ensures Readable(Field(key, StringText(s)), 0)
  {
    var e := ReadsString(key, s);
  }

  lemma NameField(key: string, s: string)
    requires PlainText(key) && PlainText(s)
    ensures Readable(Field(key, NameText(s)), 0)
  {
    var e := ReadsName(key, s);
  }

  lemma DecimalField(key: string, n: nat)
    requires PlainText(key)
    ensures Readable(Field(key, Decimal(n)), 0)
  {
    var e := ReadsDecimal(key, n);
  }

  lemma ValueField(key: string, v: Value)
    requires PlainText(key) && Good(v)
    ensures Readable(Field(key, Text(v)), Depth(v))
  {
    var e := ReadsValue(key, v);
  }

  lemma Loosen(f: Field, a: nat, b: nat)
    requires Readable(f, a) && a <= b
    ensures Readable(f, b)
  {
    var e := Reading(f, a);
  }

  ghost predicate FlatFields(fields: seq<Field>) {
    forall i :: 0 <= i < |fields| ==> Readable(fields[i], 0)
  }

  lemma FlatObject(style: Style, fields: seq<Field>) returns (v: Value)
    requires FlatFields(fields) && fields != [] && GoodStyle(style)
    ensures v.Object? && Good(v) && Text(v) == ObjectText(style, fields) && Depth(v) == 1
  {
    hide Readable, Reads, Good, Text, ObjectText, Depth, GoodStyle;
    var es := seq(|fields|, i requires 0 <= i < |fields| => Reading(fields[i], 0));
    DeepestIsZero(es);
    v := ObjectTextReads(style, fields, es);
  }

  /** Shallow fields followed by one that may nest: the object is one deeper than that one. */
  lemma ObjectAround(style: Style, fields: seq<Field>, last: Field, e: Spaced) returns (v: Value)
    requires forall i :: 0 <= i < |fields| ==> Readable(fields[i], 1)
    requires Reads(last, e) && GoodStyle(style)
    ensures v.Object? && Good(v) && Text(v) == ObjectText(style, fields + [last])
    ensures Depth(v) == 1 + Depth(e.value) || (Depth(e.value) == 0 && Depth(v) <= 2)
  {
    hide Readable, Reads, Good, Text, ObjectText, Depth, GoodStyle;
    var init := seq(|fields|, i requires 0 <= i < |fields| => Reading(fields[i], 1));
    var es := init + [e];
    if Depth(e.value) >= 1 {
      DeepestIs(es, |fields|);
    } else {
      DeepestAtMost(es, 1);
    }
    v := ObjectTextReads(style, fields + [last], es);
  }

  // ----- The parts of a result -----

  lemma StylesAreWs()
    ensures GoodStyle(BLOCK) && GoodStyle(NESTED) && GoodStyle(INLINE) && GoodStyle(COMPACT)
  {
  }

  lemma RoleNameIsPlain(role: Role)
    ensures PlainText(RoleName(role))
  {
  }

  lemma ProfileNameIsPlain(profile: Profile)
    ensures PlainText(ProfileName(profile))
  {
  }

  lemma ClockModeNameIsPlain(mode: ClockMode)
    ensures PlainText(ClockModeName(mode))
  {
  }

  lemma ConfigurationKeys()
    ensures PlainText("messages") && PlainText("warmup_messages") && PlainText("publish_interval_us")
    ensures PlainText("deadline_seconds") && PlainText("clock_mode") && PlainText("run_id")
    ensures PlainText("runtime_dir") && PlainText("output")
  {
  }

  lemma ConfigurationReads(o: CommonOptions) returns (v: Value)
    ensures Good(v) && Text(v) == ConfigurationText(o) && Depth(v) == 1
  {
    hide Readable, StringText, NameText, Decimal, ObjectText, Good, Text, Depth, PlainText, GoodStyle;
    StylesAreWs();
    ConfigurationKeys();
    ClockModeNameIsPlain(o.clockMode);
    DecimalField("messages", o.messages);
    DecimalField("warmup_messages", o.warmupMessages);
    DecimalField("publish_interval_us", o.publishIntervalUs);
    DecimalField("deadline_seconds", o.deadlineSeconds);
    NameField("clock_mode", ClockModeName(o.clockMode));
    StringField("run_id", o.runId);
    StringField("runtime_dir", o.runtimeDir);
    StringField("output", o.output);
    v := FlatObject(NESTED, ConfigurationFields(o));
  }

  lemma ClockReads(host: Host) returns (v: Value)
    ensures Good(v) && Text(v) == ClockText(host) && Depth(v) == 1
  {
    hide Readable, StringText, Decimal, ObjectText, Good, Text, Depth;
    StringField("name", host.clockName);
    DecimalField("resolution_ns", host.resolutionNs);
    StringField("boot_id", host.bootId);
    v := FlatObject(INLINE, ClockFields(host));
  }

  lemma CountsReads(c: ResultCounts) returns (v: Value)
    ensures Good(v) && Text(v) == CountsText(c) && Depth(v) == 1
  {
    hide Readable, Decimal, ObjectText, Good, Text, Depth;
    DecimalField("offered", c.offered);
    DecimalField("received", c.received);
    DecimalField("duplicate", c.duplicate);
    DecimalField("out_of_order", c.outOfOrder);
    DecimalField("corrupt", c.corrupt);
    DecimalField("lost", c.lost);
    v := FlatObject(INLINE, CountsFields(c));
  }

  lemma LatencyReads(d: Distribution) returns (v: Value)
    ensures Good(v) && Text(v) == LatencyText(d) && Depth(v) == 1
  {
    hide Readable, Decimal, ObjectText, Good, Text, Depth;
    DecimalField("samples", d.samples);
    DecimalField("p50", d.p50);
    DecimalField("p95", d.p95);
    DecimalField("p99", d.p99);
    DecimalField("p99_9", d.p999);
    DecimalField("max", d.maximum);
    v := FlatObject(INLINE, LatencyFields(d));
  }

  lemma ResultKeys()
    ensures PlainText("schema") && PlainText("backend") && PlainText("role") && PlainText("profile")
    ensures PlainText("configuration") && PlainText("clock") && PlainText("counts") && PlainText("latency_ns")
    ensures PlainText("elapsed_ns") && PlainText("payload_bytes") && PlainText("encoded_bytes")
    ensures PlainText("outcome") && PlainText("error") && PlainText("backend_details")
  {
  }

  lemma RateKey()
    ensures PlainText("throughput_messages_per_second")
  {
  }

  lemma SchemaName()
    ensures PlainText("mino.pipeline_e2e_benchmark.worker.v1")
  {
  }

  ghost predicate NumberText(rate: string) {
    exists v: Value :: v.Number? && Good(v) && Text(v) == rate
  }

  lemma ScalarFields(result: SinkResult, rate: string, outcome: string, error: string)
    requires NumberText(rate)
    ensures Readable(Field("schema", NameText("mino.pipeline_e2e_benchmark.worker.v1")), 1)
    ensures Readable(Field("backend", StringText(result.backend)), 1)
    ensures Readable(Field("role", NameText(RoleName(result.options.role))), 1)
    ensures Readable(Field("profile", NameText(ProfileName(result.options.profile))), 1)
    ensures Readable(Field("elapsed_ns", Decimal(result.elapsedNs)), 1)
    ensures Readable(Field("throughput_messages_per_second", rate), 1)
    ensures Readable(Field("payload_bytes", Decimal(result.payloadBytes)), 1)
    ensures Readable(Field("encoded_bytes", Decimal(result.encodedBytes)), 1)
    ensures Readable(Field("outcome", StringText(outcome)), 1)
    ensures Readable(Field("error", StringText(error)), 1)
  {
    hide StringText, NameText, Decimal, PlainText, RoleName, ProfileName, Readable;
    ResultKeys();
    RateKey();
    SchemaName();
    RoleNameIsPlain(result.options.role);
    ProfileNameIsPlain(result.options.profile);
    NameField("schema", "mino.pipeline_e2e_benchmark.worker.v1");
    StringField("backend", result.backend);
    NameField("role", RoleName(result.options.role));
    NameField("profile", ProfileName(result.options.profile));
    DecimalField("elapsed_ns", result.elapsedNs);
    var v: Value :| v.Number? && Good(v) && Text(v) == rate;
    ValueField("throughput_messages_per_second", v);
    DecimalField("payload_bytes", result.payloadBytes);
    DecimalField("encoded_bytes", result.encodedBytes);
    StringField("outcome", outcome);
    StringField("error", error);
    forall f | Readable(f, 0)
      ensures Readable(f, 1)
    {
      Loosen(f, 0, 1);
    }
  }

  lemma NestedFields(result: SinkResult, host: Host)
    ensures Readable(Field("configuration", ConfigurationText(result.options)), 1)
    ensures Readable(Field("clock", ClockText(host)), 1)
    ensures Readable(Field("counts", CountsText(result.counts)), 1)
    ensures Readable(Field("latency_ns", LatencyText(result.latencyNs)), 1)
  {
    hide PlainText, Readable, ConfigurationText, ClockText, CountsText, LatencyText, Good, Text, Depth;
    ResultKeys();
    var configuration := ConfigurationReads(result.options);
    ValueField("configuration", configuration);
    var clock := ClockReads(host);
    ValueField("clock", clock);
    var counts := CountsReads(result.counts);
    ValueField("counts", counts);
    var latency := LatencyReads(result.latencyNs);
    ValueField("latency_ns", latency);
  }

  lemma ResultFieldsRead(result: SinkResult, host: Host, rate: string, outcome: string, error: string)
    requires NumberText(rate)
    ensures forall f :: f in ResultFields(result, host, rate, outcome, error) ==> Readable(f, 1)
  {
    hide Readable, StringText, NameText, Decimal, RoleName, ProfileName, ConfigurationText, ClockText, CountsText;
    hide LatencyText;
    ScalarFields(result, rate, outcome, error);
    NestedFields(result, host);
  }

  /** Whatever the strings in a result hold, its text is one JSON object, and it is accepted exactly when the
      embedded details nest at most one level less than the bound. */
  lemma ResultReads(result: SinkResult, host: Host, rate: string, outcome: string, error: string, e: Spaced)
    requires NumberText(rate) && GoodSpaced(e)
    ensures var text := ResultText(result, host, rate, outcome, error, SpacedText(e));
            && ObjectDocument(text, 2 + Depth(e.value))
            && (ScanDocument(text) <==> Depth(e.value) <= MAX_DEPTH - 1)
  {
    hide Readable, ResultFields, ObjectText, Good, Text, Depth, PlainText, ScanDocument, GoodStyle;
    StylesAreWs();
    ResultKeys();
    ResultFieldsRead(result, host, rate, outcome, error);
    var fields := ResultFields(result, host, rate, outcome, error);
    var last := Field("backend_details", SpacedText(e));
    assert Reads(last, e);
    var v := ObjectAround(BLOCK, fields, last, e);
    var text := ResultText(result, host, rate, outcome, error, SpacedText(e));
    assert text == [] + Text(v) + "\n";
    assert IsDocument(text, 2 + Depth(e.value), [], v, "\n");
    JsonTheorems.AcceptsByDepth([], v, "\n");
  }

  /** The details a result embeds: its own when they are an accepted object, an empty object otherwise. */
  ghost function EmbeddedDetails(details: string): string {
    if ScanDocument(details) then details else "{}"
  }

  lemma SpacedOf(s: string, limit: nat) returns (e: Spaced)
    requires ObjectDocument(s, limit)
    ensures GoodSpaced(e) && SpacedText(e) == s && Depth(e.value) <= limit
    ensures IsDocument(s, Depth(e.value), e.before, e.value, e.after)
  {
    hide Good, Text, Depth, Ws;
    var before, v, after :| IsDocument(s, limit, before, v, after);
    e := Spaced(before, v, after);
  }

  lemma EmptyObjectIsDocument()
    ensures ObjectDocument("{}", 0)
  {
    assert Text(EmptyObject("")) == "{}";
    assert IsDocument("{}", 0, "", EmptyObject(""), "");
  }

  /** A result is always one JSON object. The repository's own parser reads it back exactly when the details were
      refused, and so replaced, or nest at least one level less than the parser's bound. */
  lemma ResultAcceptedIff(result: SinkResult, host: Host, rate: string, outcome: string, error: string, details: string)
    requires NumberText(rate)
    ensures var text := ResultText(result, host, rate, outcome, error, EmbeddedDetails(details));
            && ObjectDocument(text, MAX_DEPTH + 2)
            && (ObjectDocument(text, MAX_DEPTH) <==>
                (ObjectDocument(details, MAX_DEPTH) ==> ObjectDocument(details, MAX_DEPTH - 1)))
  {
    hide Good, Text, Depth, ScanDocument, ResultText, NumberText, GoodSpaced;
    var embedded := EmbeddedDetails(details);
    var text := ResultText(result, host, rate, outcome, error, embedded);
    JsonTheorems.AcceptsExactlyObjects(details);
    JsonTheorems.AcceptsExactlyObjects(text);
    EmptyObjectIsDocument();
    var e;
    if !ScanDocument(details) {
      e := SpacedOf("{}", 0);
    } else if ObjectDocument(details, MAX_DEPTH - 1) {
      e := SpacedOf(details, MAX_DEPTH - 1);
    } else {
      e := SpacedOf(details, MAX_DEPTH);
      DocumentWithin(details, e, MAX_DEPTH - 1);
    }
    ResultReads(result, host, rate, outcome, error, e);
    Widen(text, 2 + Depth(e.value), MAX_DEPTH + 2);
  }

  lemma DocumentWithin(s: string, e: Spaced, limit: nat)
    requires IsDocument(s, Depth(e.value), e.before, e.value, e.after)
    ensures Depth(e.value) <= limit ==> ObjectDocument(s, limit)
  {
    hide Good, Text, Depth, Ws;
    assert Depth(e.value) <= limit ==> IsDocument(s, limit, e.before, e.value, e.after);
  }

  lemma Widen(s: string, a: nat, b: nat)
    requires ObjectDocument(s, a) && a <= b
    ensures ObjectDocument(s, b)
  {
    hide Good, Text, Depth, Ws;
    var before, v, after :| IsDocument(s, a, before, v, after);
    assert IsDocument(s, b, before, v, after);
  }

  // ----- What a result says -----

  function Named(key: string, x: Data): Entry {
    Entry(Codes(key), x)
  }

  function Count(n: nat): Data {
    Quantity(n as real)
  }

  function Words(s: string): Data {
    Characters(Codes(s))
  }

  function ConfigurationData(o: CommonOptions): seq<Entry> {
    [
      Named("messages", Count(o.messages)),
      Named("warmup_messages", Count(o.warmupMessages)),
      Named("publish_interval_us", Count(o.publishIntervalUs)),
      Named("deadline_seconds", Count(o.deadlineSeconds)),
      Named("clock_mode", Words(ClockModeName(o.clockMode))),
      Named("run_id", Words(o.runId)),
      Named("runtime_dir", Words(o.runtimeDir)),
      Named("output", Words(o.output))]
  }

  function ClockData(host: Host): seq<Entry> {
    [
      Named("name", Words(host.clockName)),
      Named("resolution_ns", Count(host.resolutionNs)),
      Named("boot_id", Words(host.bootId))]
  }

  function CountsData(c: ResultCounts): seq<Entry> {
    [
      Named("offered", Count(c.offered)),
      Named("received", Count(c.received)),
      Named("duplicate", Count(c.duplicate)),
      Named("out_of_order", Count(c.outOfOrder)),
      Named("corrupt", Count(c.corrupt)),
      Named("lost", Count(c.lost))]
  }

  function LatencyData(d: Distribution): seq<Entry> {
    [
      Named("samples", Count(d.samples)),
      Named("p50", Count(d.p50)),
      Named("p95", Count(d.p95)),
      Named("p99", Count(d.p99)),
      Named("p99_9", Count(d.p999)),
      Named("max", Count(d.maximum))]
  }

  /** What a result file is to say: the data of the result under their names, with the effective outcome and error. */
  function ResultData(result: SinkResult, host: Host, rate: Data, outcome: string, error: string, details: Data)
    : seq<Entry>
  {
    [
      Named("schema", Words("mino.pipeline_e2e_benchmark.worker.v1")),
      Named("backend", Words(result.backend)),
      Named("role", Words(RoleName(result.options.role))),
      Named("profile", Words(ProfileName(result.options.profile))),
      Named("configuration", Record(ConfigurationData(result.options))),
      Named("clock", Record(ClockData(host))),
      Named("counts", Record(CountsData(result.counts))),
      Named("latency_ns", Record(LatencyData(result.latencyNs))),
      Named("elapsed_ns", Count(result.elapsedNs)),
      Named("throughput_messages_per_second", rate),
      Named("payload_bytes", Count(result.payloadBytes)),
      Named("encoded_bytes", Count(result.encodedBytes)),
      Named("outcome", Words(outcome)),
      Named("error", Words(error)),
      Named("backend_details", details)]
  }

  lemma ValueSays(key: string, v: Value)
    requires PlainText(key) && Good(v)
    ensures FieldSays(Field(key, Text(v)), Denote(v))
  {
    hide PlainText, Text, Good, Denote;
    var e := ReadsValue(key, v);
  }

  lemma CountSays(key: string, n: nat)
    requires PlainText(key)
    ensures FieldSays(Field(key, Decimal(n)), Count(n))
  {
    hide PlainText, Decimal, FieldSays;
    DecimalSays(n);
    DecimalIsNumber(n);
    ValueSays(key, Number(false, Decimal(n), None, None));
  }

  lemma WordsSay(key: string, s: string)
    requires PlainText(key)
    ensures FieldSays(Field(key, StringText(s)), Words(s))
  {
    hide PlainText, FieldSays, PiecesText, EscapePieces, Codes, PieceCodes;
    StringSays(s);
    ValueSays(key, Str(EscapePieces(s)));
  }

  lemma NameSays(key: string, s: string)
    requires PlainText(key) && PlainText(s)
    ensures FieldSays(Field(key, NameText(s)), Words(s))
  {
    hide PlainText, FieldSays, PiecesText, PlainPieces, Codes, PieceCodes;
    PlainSays(s);
    PlainPiecesText(s);
    ValueSays(key, Str(PlainPieces(s)));
  }

  lemma ConfigurationSays(o: CommonOptions) returns (v: Value)
    ensures Good(v) && Text(v) == ConfigurationText(o) && Denote(v) == Record(ConfigurationData(o))
  {
    hide FieldSays, StringText, NameText, Decimal, ObjectText, Good, Text, Denote, PlainText, GoodStyle, Codes, Count;
    hide Words;
    StylesAreWs();
    ConfigurationKeys();
    ClockModeNameIsPlain(o.clockMode);
    CountSays("messages", o.messages);
    CountSays("warmup_messages", o.warmupMessages);
    CountSays("publish_interval_us", o.publishIntervalUs);
    CountSays("deadline_seconds", o.deadlineSeconds);
    NameSays("clock_mode", ClockModeName(o.clockMode));
    WordsSay("run_id", o.runId);
    WordsSay("runtime_dir", o.runtimeDir);
    WordsSay("output", o.output);
    var xs := [Count(o.messages), Count(o.warmupMessages), Count(o.publishIntervalUs), Count(o.deadlineSeconds),
               Words(ClockModeName(o.clockMode)), Words(o.runId), Words(o.runtimeDir), Words(o.output)];
    v := ObjectSays(NESTED, ConfigurationFields(o), xs);
    assert Entries(ConfigurationFields(o), xs) == ConfigurationData(o);
  }

  lemma ClockSays(host: Host) returns (v: Value)
    ensures Good(v) && Text(v) == ClockText(host) && Denote(v) == Record(ClockData(host))
  {
    hide FieldSays, StringText, Decimal, ObjectText, Good, Text, Denote, GoodStyle, Codes, Count, Words;
    StylesAreWs();
    WordsSay("name", host.clockName);
    CountSays("resolution_ns", host.resolutionNs);
    WordsSay("boot_id", host.bootId);
    var xs := [Words(host.clockName), Count(host.resolutionNs), Words(host.bootId)];
    v := ObjectSays(INLINE, ClockFields(host), xs);
    assert Entries(ClockFields(host), xs) == ClockData(host);
  }

  lemma CountsSay(c: ResultCounts) returns (v: Value)
    ensures Good(v) && Text(v) == CountsText(c) && Denote(v) == Record(CountsData(c))
  {
    hide FieldSays, Decimal, ObjectText, Good, Text, Denote, GoodStyle, Codes, Count;
    StylesAreWs();
    CountSays("offered", c.offered);
    CountSays("received", c.received);
    CountSays("duplicate", c.duplicate);
    CountSays("out_of_order", c.outOfOrder);
    CountSays("corrupt", c.corrupt);
    CountSays("lost", c.lost);
    var xs := [Count(c.offered), Count(c.received), Count(c.duplicate), Count(c.outOfOrder), Count(c.corrupt),
               Count(c.lost)];
    v := ObjectSays(INLINE, CountsFields(c), xs);
    assert Entries(CountsFields(c), xs) == CountsData(c);
  }

  lemma LatencySays(d: Distribution) returns (v: Value)
    ensures Good(v) && Text(v) == LatencyText(d) && Denote(v) == Record(LatencyData(d))
  {
    hide FieldSays, Decimal, ObjectText, Good, Text, Denote, GoodStyle, Codes, Count;
    StylesAreWs();
    CountSays("samples", d.samples);
    CountSays("p50", d.p50);
    CountSays("p95", d.p95);
    CountSays("p99", d.p99);
    CountSays("p99_9", d.p999);
    CountSays("max", d.maximum);
    var xs := [Count(d.samples), Count(d.p50), Count(d.p95), Count(d.p99), Count(d.p999), Count(d.maximum)];
    v := ObjectSays(INLINE, LatencyFields(d), xs);
    assert Entries(LatencyFields(d), xs) == LatencyData(d);
  }

  lemma NestedSay(result: SinkResult, host: Host)
    ensures FieldSays(Field("configuration", ConfigurationText(result.options)),
                      Record(ConfigurationData(result.options)))
    ensures FieldSays(Field("clock", ClockText(host)), Record(ClockData(host)))
    ensures FieldSays(Field("counts", CountsText(result.counts)), Record(CountsData(result.counts)))
    ensures FieldSays(Field("latency_ns", LatencyText(result.latencyNs)), Record(LatencyData(result.latencyNs)))
  {
    hide PlainText, FieldSays, ConfigurationText, ClockText, CountsText, LatencyText, Good, Text, Denote;
    hide ConfigurationData, ClockData, CountsData, LatencyData;
    ResultKeys();
    var configuration := ConfigurationSays(result.options);
    ValueSays("configuration", configuration);
    var clock := ClockSays(host);
    ValueSays("clock", clock);
    var counts := CountsSay(result.counts);
    ValueSays("counts", counts);
    var latency := LatencySays(result.latencyNs);
    ValueSays("latency_ns", latency);
  }

  lemma ScalarsSay(result: SinkResult, rate: Value, outcome: string, error: string)
    requires Good(rate)
    ensures FieldSays(Field("schema", NameText("mino.pipeline_e2e_benchmark.worker.v1")),
                      Words("mino.pipeline_e2e_benchmark.worker.v1"))
    ensures FieldSays(Field("backend", StringText(result.backend)), Words(result.backend))
    ensures FieldSays(Field("role", NameText(RoleName(result.options.role))), Words(RoleName(result.options.role)))
    ensures FieldSays(Field("profile", NameText(ProfileName(result.options.profile))),
                      Words(ProfileName(result.options.profile)))
    ensures FieldSays(Field("elapsed_ns", Decimal(result.elapsedNs)), Count(result.elapsedNs))
    ensures FieldSays(Field("throughput_messages_per_second", Text(rate)), Denote(rate))
    ensures FieldSays(Field("payload_bytes", Decimal(result.payloadBytes)), Count(result.payloadBytes))
    ensures FieldSays(Field("encoded_bytes", Decimal(result.encodedBytes)), Count(result.encodedBytes))
    ensures FieldSays(Field("outcome", StringText(outcome)), Words(outcome))
    ensures FieldSays(Field("error", StringText(error)), Words(error))
  {
    hide StringText, NameText, Decimal, PlainText, RoleName, ProfileName, FieldSays, Words, Count, Denote, Text, Good;
    ResultKeys();
    RateKey();
    SchemaName();
    RoleNameIsPlain(result.options.role);
    ProfileNameIsPlain(result.options.profile);
    NameSays("schema", "mino.pipeline_e2e_benchmark.worker.v1");
    WordsSay("backend", result.backend);
    NameSays("role", RoleName(result.options.role));
    NameSays("profile", ProfileName(result.options.profile));
    CountSays("elapsed_ns", result.elapsedNs);
    ValueSays("throughput_messages_per_second", rate);
    CountSays("payload_bytes", result.payloadBytes);
    CountSays("encoded_bytes", result.encodedBytes);
    WordsSay("outcome", outcome);
    WordsSay("error", error);
  }

  /** The data of a result, field by field. */
  function ResultValues(result: SinkResult, host: Host, rate: Data, outcome: string, error: string): seq<Data> {
    [
      Words("mino.pipeline_e2e_benchmark.worker.v1"), Words(result.backend), Words(RoleName(result.options.role)),
      Words(ProfileName(result.options.profile)), Record(ConfigurationData(result.options)), Record(ClockData(host)),
      Record(CountsData(result.counts)), Record(LatencyData(result.latencyNs)), Count(result.elapsedNs), rate,
      Count(result.payloadBytes), Count(result.encodedBytes), Words(outcome), Words(error)]
  }

  lemma ResultFieldsSay(result: SinkResult, host: Host, rate: Value, outcome: string, error: string, e: Spaced)
    requires Good(rate) && GoodSpaced(e)
    ensures FieldsSay(ResultFields(result, host, Text(rate), outcome, error)
                      + [Field("backend_details", SpacedText(e))],
                      ResultValues(result, host, Denote(rate), outcome, error) + [Denote(e.value)])
  {
    hide FieldSays, StringText, NameText, Decimal, RoleName, ProfileName, ConfigurationText, ClockText, CountsText;
    hide LatencyText, Words, Count, ConfigurationData, ClockData, CountsData, LatencyData, Denote, Text, Good;
    hide PlainText;
    ScalarsSay(result, rate, outcome, error);
    NestedSay(result, host);
    DetailsSay(e);
  }

  lemma DetailsSay(e: Spaced)
    requires GoodSpaced(e)
    ensures FieldSays(Field("backend_details", SpacedText(e)), Denote(e.value))
  {
    hide PlainText, Denote, Good, Text, Ws;
    ResultKeys();
    assert Reads(Field("backend_details", SpacedText(e)), e);
  }

  lemma ResultEntries(result: SinkResult, host: Host, rate: string, value: Data, outcome: string, error: string,
                      text: string, details: Data)
    ensures Entries(ResultFields(result, host, rate, outcome, error) + [Field("backend_details", text)],
                    ResultValues(result, host, value, outcome, error) + [details])
            == ResultData(result, host, value, outcome, error, details)
  {
    hide StringText, NameText, Decimal, RoleName, ProfileName, ConfigurationText, ClockText, CountsText, LatencyText;
    hide Words, Count, ConfigurationData, ClockData, CountsData, LatencyData, Codes;
  }

  /** Whoever reads a written result by the grammar finds the data of the result, each under its own name. */
  lemma ResultSays(result: SinkResult, host: Host, rate: Value, outcome: string, error: string, e: Spaced)
    requires Good(rate) && GoodSpaced(e)
    ensures Says(ResultText(result, host, Text(rate), outcome, error, SpacedText(e)),
                 Record(ResultData(result, host, Denote(rate), outcome, error, Denote(e.value))))
  {
    hide FieldsSay, ResultFields, ResultValues, ResultData, ObjectText, Good, Text, Denote, GoodStyle, Says, Entries;
    StylesAreWs();
    ResultFieldsSay(result, host, rate, outcome, error, e);
    ResultEntries(result, host, Text(rate), Denote(rate), outcome, error, SpacedText(e), Denote(e.value));
    var fields := ResultFields(result, host, Text(rate), outcome, error) + [Field("backend_details", SpacedText(e))];
    var v := ObjectSays(BLOCK, fields, ResultValues(result, host, Denote(rate), outcome, error) + [Denote(e.value)]);
    var text := ResultText(result, host, Text(rate), outcome, error, SpacedText(e));
    assert text == [] + Text(v) + "\n";
    assert IsDocument(text, Depth(v), [], v, "\n");
    ReadingDecides(text, Depth(v), [], v, "\n");
  }

  ghost predicate NumberSays(rate: string, x: Data) {
    exists v: Value :: v.Number? && Good(v) && Text(v) == rate && Denote(v) == x
  }

  /** What the details embedded in a result say: what they say themselves, or nothing when they were refused. */
  ghost predicate DetailsAre(details: string, x: Data) {
    if ObjectDocument(details, MAX_DEPTH) then Says(details, x) else x == Record([])
  }

  /** The text says the result with outcome `outcome` and error `error`. */
  ghost predicate SaysResult(text: string, result: SinkResult, host: Host, rate: string, details: string,
                             outcome: string, error: string) {
    exists x, d :: NumberSays(rate, x) && DetailsAre(details, d)
                   && Says(text, Record(ResultData(result, host, x, outcome, error, d)))
  }

  lemma EmbeddedOf(details: string) returns (e: Spaced)
    ensures GoodSpaced(e) && SpacedText(e) == EmbeddedDetails(details) && DetailsAre(details, Denote(e.value))
  {
    hide Good, Text, Depth, ScanDocument, Says;
    JsonTheorems.AcceptsExactlyObjects(details);
    if ScanDocument(details) {
      e := SpacedOf(details, MAX_DEPTH);
      ReadingDecides(details, Depth(e.value), e.before, e.value, e.after);
    } else {
      e := Spaced([], EmptyObject([]), []);
      EmptyObjectText();
    }
  }

  lemma EmptyObjectText()
    ensures SpacedText(Spaced([], EmptyObject([]), [])) == "{}" && GoodSpaced(Spaced([], EmptyObject([]), []))
    ensures Denote(EmptyObject([])) == Record([])
  {}

  lemma ResultIsSaid(result: SinkResult, host: Host, rate: string, outcome: string, error: string, details: string)
    requires NumberText(rate)
    ensures SaysResult(ResultText(result, host, rate, outcome, error, EmbeddedDetails(details)), result, host, rate,
                       details, outcome, error)
  {
    hide Good, Text, Says, Denote, ResultData, ResultText, DetailsAre, EmbeddedDetails;
    var v: Value :| v.Number? && Good(v) && Text(v) == rate;
    assert NumberSays(rate, Denote(v));
    var e := EmbeddedOf(details);
    ResultSays(result, host, v, outcome, error, e);
  }

  /** The text is the result file with the outcome and the error that the result deserves, and says so. */
  ghost predicate Reports(text: string, result: SinkResult, host: Host, rate: string, details: string, outcome: string,
                          error: string) {
    && text == ResultText(result, host, rate, outcome, error, EmbeddedDetails(details))
    && SaysResult(text, result, host, rate, details, outcome, error)
    && outcome == (if Successful(result, ObjectDocument(details, MAX_DEPTH)) then "success" else "failure")
    && result.error <= error
  }

  method WriteSinkResult(result: SinkResult, host: Host, rate: string) returns (text: Option<string>)
    requires NumberText(rate)
    ensures text.Some? <==> ValidCommonOptions(result.options)
    ensures text.Some? ==>
              var details := TrimBack(TrimFront(result.backendDetails));
              && (exists outcome, error :: Reports(text.value, result, host, rate, details, outcome, error))
              && ObjectDocument(text.value, MAX_DEPTH + 2)
              && (ObjectDocument(text.value, MAX_DEPTH) <==>
                  (ObjectDocument(details, MAX_DEPTH) ==> ObjectDocument(details, MAX_DEPTH - 1)))
  {
    hide ObjectDocument, ResultText, NumberText, ScanDocument, CleanCounts, TrimBack, TrimFront, SaysResult, Mentions;
    if !ValidCommonOptions(result.options) {
      return None;
    }
    var details := Trim(result.backendDetails);
    var parser := new JsonParsing.JsonParser(details);
    var detailsValid := parser.ParseObjectDocument();
    var outcome, error := EffectiveOutcome(result, detailsValid);
    JsonTheorems.AcceptsExactlyObjects(details);
    ResultAcceptedIff(result, host, rate, outcome, error, details);
    ResultIsSaid(result, host, rate, outcome, error, details);
    var written := ResultText(result, host, rate, outcome, error, if detailsValid then details else "{}");
    assert Reports(written, result, host, rate, details, outcome, error);
    text := Some(written);
  }

  // ----- Finding the fields of a result -----

  /** Length, first and last character tell the names of a record apart. */
  predicate Apart(a: string, b: string) {
    |a| != |b| || (a != [] && (a[0] != b[0] || a[|a| - 1] != b[|b| - 1]))
  }

  lemma ApartDiffer(a: string, b: string)
    requires Apart(a, b)
    ensures Codes(a) != Codes(b)
  {
    if |a| == |b| {
      assert Codes(a)[0] == a[0] as nat && Codes(b)[0] == b[0] as nat;
      assert Codes(a)[|a| - 1] == a[|a| - 1] as nat && Codes(b)[|b| - 1] == b[|b| - 1] as nat;
    }
  }

  lemma Distinguished(keys: seq<string>, entries: seq<Entry>)
    requires |keys| == |entries| && forall i :: 0 <= i < |keys| ==> entries[i].key == Codes(keys[i])
    requires forall i, j :: 0 <= i < j < |keys| ==> Apart(keys[i], keys[j])
    ensures DistinctKeys(entries)
  {
    hide Codes, Apart;
    forall i, j | 0 <= i < j < |entries| ensures entries[i].key != entries[j].key {
      ApartDiffer(keys[i], keys[j]);
    }
  }

  /** What a reader finds under each name of a part of a result, and of the result itself. */
  lemma CountsFound(c: ResultCounts)
    ensures var e := CountsData(c);
            && Find(e, Codes("offered")) == Some(Count(c.offered))
            && Find(e, Codes("received")) == Some(Count(c.received))
            && Find(e, Codes("duplicate")) == Some(Count(c.duplicate))
            && Find(e, Codes("out_of_order")) == Some(Count(c.outOfOrder))
            && Find(e, Codes("corrupt")) == Some(Count(c.corrupt))
            && Find(e, Codes("lost")) == Some(Count(c.lost))
  {
    var e := CountsData(c);
    Distinguished(["offered", "received", "duplicate", "out_of_order", "corrupt", "lost"], e);
    hide Codes, Find;
    Finds(e, 0);
    Finds(e, 1);
    Finds(e, 2);
    Finds(e, 3);
    Finds(e, 4);
    Finds(e, 5);
  }

  lemma LatencyFound(d: Distribution)
    ensures var e := LatencyData(d);
            && Find(e, Codes("samples")) == Some(Count(d.samples))
            && Find(e, Codes("p50")) == Some(Count(d.p50))
            && Find(e, Codes("p95")) == Some(Count(d.p95))
            && Find(e, Codes("p99")) == Some(Count(d.p99))
            && Find(e, Codes("p99_9")) == Some(Count(d.p999))
            && Find(e, Codes("max")) == Some(Count(d.maximum))
  {
    var e := LatencyData(d);
    Distinguished(["samples", "p50", "p95", "p99", "p99_9", "max"], e);
    hide Codes, Find;
    Finds(e, 0);
    Finds(e, 1);
    Finds(e, 2);
    Finds(e, 3);
    Finds(e, 4);
    Finds(e, 5);
  }

  lemma ConfigurationFound(o: CommonOptions)
    ensures var e := ConfigurationData(o);
            && Find(e, Codes("messages")) == Some(Count(o.messages))
            && Find(e, Codes("warmup_messages")) == Some(Count(o.warmupMessages))
            && Find(e, Codes("publish_interval_us")) == Some(Count(o.publishIntervalUs))
            && Find(e, Codes("deadline_seconds")) == Some(Count(o.deadlineSeconds))
            && Find(e, Codes("clock_mode")) == Some(Words(ClockModeName(o.clockMode)))
            && Find(e, Codes("run_id")) == Some(Words(o.runId))
            && Find(e, Codes("runtime_dir")) == Some(Words(o.runtimeDir))
            && Find(e, Codes("output")) == Some(Words(o.output))
  {
    var e := ConfigurationData(o);
    Distinguished(["messages", "warmup_messages", "publish_interval_us", "deadline_seconds", "clock_mode", "run_id",
                   "runtime_dir", "output"], e);
    hide Codes, Find;
    Finds(e, 0);
    Finds(e, 1);
    Finds(e, 2);
    Finds(e, 3);
    Finds(e, 4);
    Finds(e, 5);
    Finds(e, 6);
    Finds(e, 7);
  }

  lemma ClockFound(host: Host)
    ensures var e := ClockData(host);
            && Find(e, Codes("name")) == Some(Words(host.clockName))
            && Find(e, Codes("resolution_ns")) == Some(Count(host.resolutionNs))
            && Find(e, Codes("boot_id")) == Some(Words(host.bootId))
  {
    var e := ClockData(host);
    Distinguished(["name", "resolution_ns", "boot_id"], e);
    hide Codes, Find;
    Finds(e, 0);
    Finds(e, 1);
    Finds(e, 2);
  }

  const RESULT_KEYS: seq<string> :=
    ["schema", "backend", "role", "profile", "configuration", "clock", "counts", "latency_ns",
     "elapsed_ns", "throughput_messages_per_second", "payload_bytes", "encoded_bytes",
     "outcome", "error", "backend_details"]

  lemma ResultKeysApart()
    ensures forall i, j :: 0 <= i < j < |RESULT_KEYS| ==> Apart(RESULT_KEYS[i], RESULT_KEYS[j])
  {}

  lemma ResultKeysMatch(result: SinkResult, host: Host, rate: Data, outcome: string, error: string, details: Data)
    ensures var e := ResultData(result, host, rate, outcome, error, details);
            |RESULT_KEYS| == |e| && forall i :: 0 <= i < |e| ==> e[i].key == Codes(RESULT_KEYS[i])
  {
    hide Codes;
  }

  lemma ResultFound(result: SinkResult, host: Host, rate: Data, outcome: string, error: string, details: Data)
    ensures var e := ResultData(result, host, rate, outcome, error, details);
            && Find(e, Codes("schema")) == Some(Words("mino.pipeline_e2e_benchmark.worker.v1"))
            && Find(e, Codes("backend")) == Some(Words(result.backend))
            && Find(e, Codes("role")) == Some(Words(RoleName(result.options.role)))
            && Find(e, Codes("profile")) == Some(Words(ProfileName(result.options.profile)))
            && Find(e, Codes("configuration")) == Some(Record(ConfigurationData(result.options)))
            && Find(e, Codes("clock")) == Some(Record(ClockData(host)))
            && Find(e, Codes("counts")) == Some(Record(CountsData(result.counts)))
            && Find(e, Codes("latency_ns")) == Some(Record(LatencyData(result.latencyNs)))
            && Find(e, Codes("elapsed_ns")) == Some(Count(result.elapsedNs))
            && Find(e, Codes("throughput_messages_per_second")) == Some(rate)
            && Find(e, Codes("payload_bytes")) == Some(Count(result.payloadBytes))
            && Find(e, Codes("encoded_bytes")) == Some(Count(result.encodedBytes))
            && Find(e, Codes("outcome")) == Some(Words(outcome))
            && Find(e, Codes("error")) == Some(Words(error))
            && Find(e, Codes("backend_details")) == Some(details)
  {
    var e := ResultData(result, host, rate, outcome, error, details);
    ResultKeysApart();
    ResultKeysMatch(result, host, rate, outcome, error, details);
    Distinguished(RESULT_KEYS, e);
    hide Codes, Find;
    Finds(e, 0);
    Finds(e, 1);
    Finds(e, 2);
    Finds(e, 3);
    Finds(e, 4);
    Finds(e, 5);
    Finds(e, 6);
    Finds(e, 7);
    Finds(e, 8);
    Finds(e, 9);
    Finds(e, 10);
    Finds(e, 11);
    Finds(e, 12);
    Finds(e, 13);
    Finds(e, 14);
  }

  // ----- Details written by the TCP worker, which embed an object of their own -----

  const TRANSPORT := "production TcpDriver " + "plaintext benchmark mode"

  datatype TcpDetails = TcpDetails(
    compilationMode: string, schemaShortId: nat, schemaVersion: nat, layoutVersion: nat, clockMode: ClockMode,
    receiveBatchSize: nat, crossHostReportingAllowed: bool)

  function BoolText(b: bool): string {
    if b then "true" else "false"
  }

  /** One-way latency is meaningful on one host, and across hosts only when their clocks are known to agree. */
  predicate OneWayValid(d: TcpDetails) {
    d.clockMode.IndependentHosts? ==> d.crossHostReportingAllowed
  }

  function TcpDetailsFields(d: TcpDetails): seq<Field> {
    [
      Field("transport", NameText(TRANSPORT)),
      Field("wire_frame", NameText("WireFrameCodec v1 with payload CRC")),
      Field("schema_codec", NameText("CanonicalWireCodec")),
      Field("canonical_descriptor_closure", NameText("startup-prepared")),
      Field("schema_source", NameText("minoc descriptor artifact")),
      Field("compilation_mode", NameText(d.compilationMode)),
      Field("schema_short_id", Decimal(d.schemaShortId)),
      Field("schema_version", Decimal(d.schemaVersion)),
      Field("layout_version", Decimal(d.layoutVersion)),
      Field("clock_mode", NameText(ClockModeName(d.clockMode))),
      Field("one_way_latency_valid", BoolText(OneWayValid(d))),
      Field("ptp_one_way_reporting", BoolText(d.crossHostReportingAllowed)),
      Field("completion_barrier", NameText("reverse hop-by-hop ACK")),
      Field("receive_batch_size", Decimal(d.receiveBatchSize)),
      Field("receive_cache", NameText("per-connection ordered"))]
  }

  function TcpDetailsText(d: TcpDetails, endpoints: string): string {
    ObjectText(COMPACT, TcpDetailsFields(d) + [Field("endpoints", endpoints)])
  }

  lemma TcpKeys()
    ensures PlainText("transport") && PlainText("wire_frame") && PlainText("schema_codec")
    ensures PlainText("schema_source") && PlainText("compilation_mode") && PlainText("schema_short_id")
    ensures PlainText("schema_version") && PlainText("layout_version") && PlainText("clock_mode")
  {
  }

  lemma TcpKeysMore()
    ensures PlainText("canonical_descriptor_closure") && PlainText("one_way_latency_valid")
    ensures PlainText("ptp_one_way_reporting") && PlainText("completion_barrier")
    ensures PlainText("receive_batch_size") && PlainText("receive_cache") && PlainText("endpoints")
  {
  }

  lemma TcpNames()
    ensures PlainText("WireFrameCodec v1 with payload CRC") && PlainText("CanonicalWireCodec")
  {
  }

  lemma TransportName()
    ensures PlainText(TRANSPORT)
  {
    PlainConcat("production TcpDriver ", "plaintext benchmark mode");
  }

  lemma PlainConcat(a: string, b: string)
    requires PlainText(a) && PlainText(b)
    ensures PlainText(a + b)
  {
  }

  lemma TcpNamesMore()
    ensures PlainText("startup-prepared") && PlainText("minoc descriptor artifact")
    ensures PlainText("reverse hop-by-hop ACK") && PlainText("per-connection ordered")
  {
  }

  lemma BoolField(key: string, b: bool)
    requires PlainText(key)
    ensures Readable(Field(key, BoolText(b)), 0)
  {
    hide PlainText, Readable;
    ValueField(key, Word(BoolText(b)));
  }

  lemma TcpFieldsRead(d: TcpDetails)
    requires PlainText(d.compilationMode)
    ensures forall f :: f in TcpDetailsFields(d) ==> Readable(f, 1)
  {
    hide Readable, PlainText, NameText, Decimal, BoolText, ClockModeName;
    TcpKeys();
    TcpKeysMore();
    TransportName();
    TcpNames();
    TcpNamesMore();
    ClockModeNameIsPlain(d.clockMode);
    NameField("transport", TRANSPORT);
    NameField("wire_frame", "WireFrameCodec v1 with payload CRC");
    NameField("schema_codec", "CanonicalWireCodec");
    NameField("canonical_descriptor_closure", "startup-prepared");
    NameField("schema_source", "minoc descriptor artifact");
    NameField("compilation_mode", d.compilationMode);
    DecimalField("schema_short_id", d.schemaShortId);
    DecimalField("schema_version", d.schemaVersion);
    DecimalField("layout_version", d.layoutVersion);
    NameField("clock_mode", ClockModeName(d.clockMode));
    BoolField("one_way_latency_valid", OneWayValid(d));
    BoolField("ptp_one_way_reporting", d.crossHostReportingAllowed);
    NameField("completion_barrier", "reverse hop-by-hop ACK");
    DecimalField("receive_batch_size", d.receiveBatchSize);
    NameField("receive_cache", "per-connection ordered");
    forall f | Readable(f, 0)
      ensures Readable(f, 1)
    {
      Loosen(f, 0, 1);
    }
  }

  lemma TcpDetailsRead(d: TcpDetails, e: Spaced) returns (v: Value)
    requires PlainText(d.compilationMode) && GoodSpaced(e)
    ensures v.Object? && Good(v) && Text(v) == TcpDetailsText(d, SpacedText(e))
    ensures Depth(v) == 1 + Depth(e.value) || (Depth(e.value) == 0 && Depth(v) <= 2)
  {
    hide Readable, TcpDetailsFields, ObjectText, Good, Text, Depth, PlainText, GoodStyle;
    StylesAreWs();
    TcpKeysMore();
    TcpFieldsRead(d);
    var last := Field("endpoints", SpacedText(e));
    assert Reads(last, e);
    v := ObjectAround(COMPACT, TcpDetailsFields(d), last, e);
  }

  /** What the details are to say about the connection, with the endpoints embedded last. */
  function TcpData(d: TcpDetails, endpoints: Data): seq<Entry> {
    [
      Named("transport", Words(TRANSPORT)),
      Named("wire_frame", Words("WireFrameCodec v1 with payload CRC")),
      Named("schema_codec", Words("CanonicalWireCodec")),
      Named("canonical_descriptor_closure", Words("startup-prepared")),
      Named("schema_source", Words("minoc descriptor artifact")),
      Named("compilation_mode", Words(d.compilationMode)),
      Named("schema_short_id", Count(d.schemaShortId)),
      Named("schema_version", Count(d.schemaVersion)),
      Named("layout_version", Count(d.layoutVersion)),
      Named("clock_mode", Words(ClockModeName(d.clockMode))),
      Named("one_way_latency_valid", Truth(d.clockMode == SameHost || d.crossHostReportingAllowed)),
      Named("ptp_one_way_reporting", Truth(d.crossHostReportingAllowed)),
      Named("completion_barrier", Words("reverse hop-by-hop ACK")),
      Named("receive_batch_size", Count(d.receiveBatchSize)),
      Named("receive_cache", Words("per-connection ordered")),
      Named("endpoints", endpoints)]
  }

  lemma TruthSays(key: string, b: bool)
    requires PlainText(key)
    ensures FieldSays(Field(key, BoolText(b)), Truth(b))
  {
    hide PlainText, FieldSays;
    ValueSays(key, Word(BoolText(b)));
  }

  function TcpValues(d: TcpDetails): seq<Data> {
    [
      Words(TRANSPORT), Words("WireFrameCodec v1 with payload CRC"), Words("CanonicalWireCodec"),
      Words("startup-prepared"), Words("minoc descriptor artifact"), Words(d.compilationMode), Count(d.schemaShortId),
      Count(d.schemaVersion), Count(d.layoutVersion), Words(ClockModeName(d.clockMode)), Truth(OneWayValid(d)),
      Truth(d.crossHostReportingAllowed), Words("reverse hop-by-hop ACK"), Count(d.receiveBatchSize),
      Words("per-connection ordered")]
  }

  lemma TcpFieldsSay(d: TcpDetails)
    requires PlainText(d.compilationMode)
    ensures FieldsSay(TcpDetailsFields(d), TcpValues(d))
  {
    hide FieldSays, PlainText, NameText, Decimal, BoolText, ClockModeName, Words, Count;
    TcpKeys();
    TcpKeysMore();
    TransportName();
    TcpNames();
    TcpNamesMore();
    ClockModeNameIsPlain(d.clockMode);
    NameSays("transport", TRANSPORT);
    NameSays("wire_frame", "WireFrameCodec v1 with payload CRC");
    NameSays("schema_codec", "CanonicalWireCodec");
    NameSays("canonical_descriptor_closure", "startup-prepared");
    NameSays("schema_source", "minoc descriptor artifact");
    NameSays("compilation_mode", d.compilationMode);
    CountSays("schema_short_id", d.schemaShortId);
    CountSays("schema_version", d.schemaVersion);
    CountSays("layout_version", d.layoutVersion);
    NameSays("clock_mode", ClockModeName(d.clockMode));
    TruthSays("one_way_latency_valid", OneWayValid(d));
    TruthSays("ptp_one_way_reporting", d.crossHostReportingAllowed);
    NameSays("completion_barrier", "reverse hop-by-hop ACK");
    CountSays("receive_batch_size", d.receiveBatchSize);
    NameSays("receive_cache", "per-connection ordered");
  }

  lemma TcpEntries(d: TcpDetails, text: string, endpoints: Data)
    ensures Entries(TcpDetailsFields(d) + [Field("endpoints", text)], TcpValues(d) + [endpoints])
            == TcpData(d, endpoints)
  {
    hide NameText, Decimal, BoolText, ClockModeName, Words, Count, Codes;
  }

  /** Whoever reads the details by the grammar finds the data of the connection and the endpoints. */
  lemma TcpDetailsSay(d: TcpDetails, endpoints: string, x: Data)
    requires PlainText(d.compilationMode) && ObjectDocument(endpoints, MAX_DEPTH) && Says(endpoints, x)
    ensures Says(TcpDetailsText(d, endpoints), Record(TcpData(d, x)))
  {
    hide FieldSays, TcpDetailsFields, TcpValues, TcpData, ObjectText, Good, Text, Denote, PlainText, GoodStyle, Entries;
    StylesAreWs();
    TcpKeysMore();
    var e := SpacedOf(endpoints, MAX_DEPTH);
    assert Denote(e.value) == x;
    var last := Field("endpoints", endpoints);
    assert Reads(last, e);
    TcpFieldsSay(d);
    TcpEntries(d, endpoints, x);
    assert FieldSays(last, x) by { LastSays(last, e); }
    var v := ObjectSays(COMPACT, TcpDetailsFields(d) + [last], TcpValues(d) + [x]);
    var text := TcpDetailsText(d, endpoints);
    NoSpace(text);
    assert IsDocument(text, Depth(v), [], v, []);
    ReadingDecides(text, Depth(v), [], v, []);
  }

  lemma LastSays(f: Field, e: Spaced)
    requires Reads(f, e)
    ensures FieldSays(f, Denote(e.value))
  {
    hide Denote;
  }

  const MAX_RECEIVE_BATCH := 64

  method BuildMinoTcpBackendDetails(d: TcpDetails, endpointsJson: string) returns (text: Option<string>)
    requires PlainText(d.compilationMode)
    ensures var endpoints := TrimBack(TrimFront(endpointsJson));
            && (text.Some? <==> ObjectDocument(endpoints, MAX_DEPTH) && 1 <= d.receiveBatchSize <= MAX_RECEIVE_BATCH)
            && (text.Some? ==> text.value == TcpDetailsText(d, endpoints))
            && (text.Some? ==> forall x :: Says(endpoints, x) ==> Says(text.value, Record(TcpData(d, x))))
            && (text.Some? ==> (ObjectDocument(text.value, MAX_DEPTH) <==> ObjectDocument(endpoints, MAX_DEPTH - 1)))
  {
    hide ObjectDocument, PlainText, TrimBack, TrimFront, TcpDetailsText, Says, TcpData;
    var endpoints := Trim(endpointsJson);
    var parser := new JsonParsing.JsonParser(endpoints);
    var ok := parser.ParseObjectDocument();
    if !ok || d.receiveBatchSize == 0 || d.receiveBatchSize > MAX_RECEIVE_BATCH {
      return None;
    }
    TcpDetailsAcceptedIff(d, endpoints);
    forall x | Says(endpoints, x) ensures Says(TcpDetailsText(d, endpoints), Record(TcpData(d, x))) {
      TcpDetailsSay(d, endpoints, x);
    }
    text := Some(TcpDetailsText(d, endpoints));
  }

  lemma TcpDetailsAcceptedIff(d: TcpDetails, endpoints: string)
    requires PlainText(d.compilationMode) && ObjectDocument(endpoints, MAX_DEPTH)
    ensures ObjectDocument(TcpDetailsText(d, endpoints), MAX_DEPTH) <==> ObjectDocument(endpoints, MAX_DEPTH - 1)
  {
    hide Good, Text, Depth, ScanDocument, TcpDetailsText, PlainText, GoodSpaced, ObjectDocument;
    var text := TcpDetailsText(d, endpoints);
    JsonTheorems.AcceptsExactlyObjects(text);
    var e;
    if ObjectDocument(endpoints, MAX_DEPTH - 1) {
      e := SpacedOf(endpoints, MAX_DEPTH - 1);
    } else {
      e := SpacedOf(endpoints, MAX_DEPTH);
      DocumentWithin(endpoints, e, MAX_DEPTH - 1);
    }
    var v := TcpDetailsRead(d, e);
    NoSpace(text);
    JsonTheorems.AcceptsByDepth([], v, []);
  }

  /** From the endpoints to the result file, over both embeddings: endpoints that nest exactly one level below
      the bound are the only ones whose result the parser refuses. */
  lemma EndpointsToResult(result: SinkResult, host: Host, rate: string, outcome: string, error: string, d: TcpDetails,
                          e: Spaced)
    requires NumberText(rate) && PlainText(d.compilationMode)
    requires GoodSpaced(e) && (e.value.Object? || e.value.EmptyObject?) && Depth(e.value) <= MAX_DEPTH
    ensures var details := TcpDetailsText(d, SpacedText(e));
            ObjectDocument(ResultText(result, host, rate, outcome, error, EmbeddedDetails(details)), MAX_DEPTH)
            <==> Depth(e.value) != MAX_DEPTH - 1
  {
    hide Good, Text, Depth, ScanDocument, ResultText, NumberText, TcpDetailsText, PlainText;
    var details := TcpDetailsText(d, SpacedText(e));
    var text := ResultText(result, host, rate, outcome, error, EmbeddedDetails(details));
    var v := TcpDetailsRead(d, e);
    NoSpace(details);
    JsonTheorems.AcceptsByDepth([], v, []);
    JsonTheorems.AcceptsExactlyObjects(text);
    var inner := Spaced([], v, []);
    if Depth(v) > MAX_DEPTH {
      EmptyObjectIsDocument();
      inner := SpacedOf("{}", 0);
    }
    ResultReads(result, host, rate, outcome, error, inner);
  }

  function EndpointText(address: Option<string>): string {
    if address.Some? then StringText(address.value) else "null"
  }

  /** The endpoints a TCP worker reports: where it listens and whom it connects to, if at all. */
  function EndpointsText(listen: Option<string>, peer: Option<string>): string {
    ObjectText(COMPACT, [Field("listen", EndpointText(listen)), Field("peer", EndpointText(peer))])
  }

  lemma EndpointField(key: string, address: Option<string>)
    requires PlainText(key)
    ensures Readable(Field(key, EndpointText(address)), 0)
  {
    hide Readable, PlainText, StringText;
    if address.Some? {
      StringField(key, address.value);
    } else {
      ValueField(key, Word("null"));
    }
  }

  /** The endpoints a TCP worker builds itself are flat, so its results are always read back. */
  lemma TcpWorkerResultsAreReadable(result: SinkResult, host: Host, rate: string, outcome: string, error: string,
                                    d: TcpDetails, listen: Option<string>, peer: Option<string>)
    requires NumberText(rate) && PlainText(d.compilationMode)
    ensures var details := TcpDetailsText(d, EndpointsText(listen, peer));
            ObjectDocument(ResultText(result, host, rate, outcome, error, EmbeddedDetails(details)), MAX_DEPTH)
  {
    hide Readable, EndpointText, ObjectText, Good, Text, Depth, NumberText, TcpDetailsText, ResultText, GoodStyle;
    StylesAreWs();
    EndpointField("listen", listen);
    EndpointField("peer", peer);
    var v := FlatObject(COMPACT, [Field("listen", EndpointText(listen)), Field("peer", EndpointText(peer))]);
    NoSpace(Text(v));
    EndpointsToResult(result, host, rate, outcome, error, d, Spaced([], v, []));
  }

  // ----- Details at the bound -----

  ghost function Nest(n: nat): (v: Value)
    ensures Good(v) && Depth(v) == n && (v.Object? || v.EmptyObject?)
  {
    if n == 0 then EmptyObject([]) else Object(Members([], [Plain('a')], [], [], Nest(n - 1), [], None))
  }

  /** Details at the bound are accepted on their own, and the result that embeds them is refused. */
  lemma DetailsAtTheBound(result: SinkResult, host: Host, rate: string, outcome: string, error: string)
    requires NumberText(rate)
    ensures var details := Text(Nest(MAX_DEPTH));
            && ObjectDocument(details, MAX_DEPTH)
            && !ObjectDocument(ResultText(result, host, rate, outcome, error, EmbeddedDetails(details)), MAX_DEPTH)
  {
    hide Good, Text, Depth, ScanDocument, ResultText, NumberText, Nest;
    var v := Nest(MAX_DEPTH);
    var details := Text(v);
    NoSpace(details);
    var e := Spaced([], v, []);
    JsonTheorems.AcceptsByDepth([], v, []);
    JsonTheorems.AcceptsExactlyObjects(details);
    ResultReads(result, host, rate, outcome, error, e);
    JsonTheorems.AcceptsExactlyObjects(ResultText(result, host, rate, outcome, error, details));
  }
}
