/** What the consumer does with a delivery: classify, quarantine, budget, and dispose of it. */
module Consumer {
  import opened Options
  import opened Text
  import opened Subjects
  import opened Shard
  import opened RetryBudget

  datatype Code =
    | Unavailable | Internal | ValidationFailedCode | InvalidArgument | NotFound | Conflict | OutOfOrder | Duplicate
    | IntegrityViolation | OtherCode

  /** A problem with the details the policy reads: a reason code and a reason, where they are texts. */
  datatype Problem = Problem(
    code: Code, retryable: bool, reasonCode: Option<string>, reason: Option<string>, message: string, cause: Option<string>)

  // ---------------------------------------------------------------- classification

  /** normalizeIngestReason, for the codes that decide anything */
  function NormalReason(code: string): Option<Reason> {
    var s := ToUpper(TrimSpace(code));
    if s == "OK" then Some(Ok)
    else if s == "DECODE_FAILED" then Some(DecodeFailed)
    else if s == "VALIDATION_FAILED" then Some(ValidationFailed)
    else if s == "UNKNOWN_EVENT_TYPE" then Some(UnknownType)
    else if s == "UNKNOWN_EVENT_VERSION" then Some(UnknownVersion)
    else if s == "TRANSIENT_FAILURE" then Some(Transient)
    else if s == "TRANSIENT_EXHAUSTED" then Some(Exhausted)
    else if s == "QUARANTINE_PUBLISH_FAILED" then Some(QuarantineFailed)
    else None
  }

  function ReasonInDetails(reason: string): Option<Reason> {
    if Contains(reason, "unknown_event_type") then Some(UnknownType)
    else if Contains(reason, "missing_payload_codec") then Some(UnknownVersion)
    else if Contains(reason, "json_fallback_decode") then Some(DecodeFailed)
    else if Contains(reason, "unknown_content_type") then Some(ValidationFailed)
    else None
  }

  function ReasonInMessage(message: string): Option<Reason> {
    var msg := ToLower(TrimSpace(message));
    if Contains(msg, "unhandled envelope type") then Some(UnknownType)
    else if Contains(msg, "unsupported envelope version") then Some(UnknownVersion)
    else if Contains(msg, "decode") || Contains(msg, "unmarshal") then Some(DecodeFailed)
    else None
  }

  /** reasonCodeFromProblem, normalised */
  function ReasonOf(p: Problem): Option<Reason> {
    if p.reasonCode.Some? then NormalReason(p.reasonCode.value)
    else if p.reason.Some? && ReasonInDetails(p.reason.value).Some? then ReasonInDetails(p.reason.value)
    else ReasonInMessage(p.message)
  }

  predicate LooksLikeDecodeFailure(p: Problem) {
    var msg := ToLower(TrimSpace(p.message));
    Contains(msg, "decode") || Contains(msg, "unmarshal") ||
    (p.cause.Some? &&
     var cause := ToLower(TrimSpace(p.cause.value));
     Contains(cause, "json") || Contains(cause, "unmarshal"))
  }

  /** isKnownEventVersionUnsupported */
  predicate UnsupportedVersion(env: Envelope) {
    var t := ToLower(TrimSpace(env.typ));
    (t == "marketdata.bookdelta" || t == "marketdata.trade" || t == "marketdata.raw") && env.version > 0 && env.version != 1
  }

  function Poison(r: Reason): Decision {
    Decision(Term, r, true)
  }

  const RETRY := Decision(Nak, Transient, false)

  /** ClassifyIngestError */
  function Classify(problem: Option<Problem>, env: Envelope): Decision {
    if problem.None? then Decision(Ack, Ok, false)
    else
      var p := problem.value;
      match ReasonOf(p)
      case Some(UnknownType) => Poison(UnknownType)
      case Some(UnknownVersion) => Poison(UnknownVersion)
      case Some(DecodeFailed) => Poison(DecodeFailed)
      case Some(ValidationFailed) => Poison(ValidationFailed)
      case _ =>
        if UnsupportedVersion(env) then Poison(UnknownVersion)
        else if p.retryable || p.code.Unavailable? then RETRY
        else if p.code.Internal? && !LooksLikeDecodeFailure(p) then RETRY
        else if p.code.Internal? || p.code.OtherCode? then RETRY
        else Poison(ValidationFailed)
  }

  /** classifyEnvelopeDecodeFailure */
  function ClassifyDecode(p: Problem): Decision {
    Poison(if LooksLikeDecodeFailure(p) then DecodeFailed else ValidationFailed)
  }

  /** applyQuarantinePublishResult */
  function AfterPublish(d: Decision, result: Option<Problem>): Decision {
    if result.None? then d
    else Decision(if result.value.retryable then Nak else Term, QuarantineFailed, false)
  }

  // ---------------------------------------------------------------- one delivery

  datatype Decoded = Readable(env: Envelope) | Broken(problem: Problem)

  /**
   * A message and everything its surroundings answer while it is consumed: what the handler returns, whether shutdown is
   * seen after it, what publishing to quarantine gives if it is tried, and whether shutdown is seen before disposing.
   */
  datatype Delivery = Delivery(
    subject: string, delivered: Option<int>, decoded: Decoded, handled: Option<Problem>, stopped: bool,
    published: Option<Problem>, stoppedAtAck: bool)

  datatype Effect = Handled(result: Option<Problem>) | Quarantined(failure: Option<Problem>) | Disposed(how: Disposition)

  datatype Config = Config(hash: string -> uint32, groups: int, mine: int, budget: int)

  predicate ValidConfig(c: Config) {
    c.groups < 0x1_0000_0000 && c.budget >= 1
  }

  const NO_ENVELOPE := Envelope("", 0, "", "")

  /** isQuarantineMessage */
  predicate IsQuarantine(subject: string, env: Envelope) {
    ToLower(TrimSpace(env.typ)) == "quarantine" || HasPrefix(ToLower(TrimSpace(subject)), "quarantine.v1.")
  }

  /** The last two tokens of a subject, as parseSubjectMeta reads them. */
  function SubjectBook(subject: string): (string, string) {
    var tokens := Split(TrimSpace(subject));
    var n := |tokens|;
    if n < 4 then ("", "") else (TrimSpace(tokens[n - 2]), TrimSpace(tokens[n - 1]))
  }

  /** retryBudgetPartition */
  function Partition(subject: string, env: Envelope): Key {
    var (subjectVenue, subjectInstrument) := SubjectBook(subject);
    var venue := OrUnknown(ToLower(TrimSpace(env.venue)), ToLower(TrimSpace(subjectVenue)));
    var instrument := OrUnknown(ToUpper(TrimSpace(env.instrument)), ToUpper(TrimSpace(subjectInstrument)));
    Key(OrUnknown(venue, "unknown") + "|" + OrUnknown(instrument, "unknown"))
  }

  /** The first text that is given, or else "unknown". */
  ghost predicate FirstGiven(r: string, own: string, other: string) {
    && (own != "" ==> r == own) && (own == "" && other != "" ==> r == other) && (own == "" && other == "" ==> r == "unknown")
  }

  /** A budget belongs to a venue and an instrument, which the envelope names, or else the subject. */
  lemma PartitionIsBook(subject: string, env: Envelope, venue: string, instrument: string)
    requires FirstGiven(venue, ToLower(TrimSpace(env.venue)), ToLower(TrimSpace(SubjectBook(subject).0)))
    requires FirstGiven(instrument, ToUpper(TrimSpace(env.instrument)), ToUpper(TrimSpace(SubjectBook(subject).1)))
    ensures Partition(subject, env) == Key(venue + "|" + instrument)
  {
  }

  /** A subject printed for an envelope names its venue and instrument. */
  lemma SubjectNamesBook(env: Envelope)
    requires Printable(env)
    ensures SubjectBook(SubjectOf(env)) == (VenueOf(env), InstrumentOf(env))
  {
    SubjectRoundTrip(env);
    SubjectTokens(env);
    SubjectConcrete(env);
    PrintableTokens(env);
    PartsAreSolid(env);
  }

  /** Envelopes that name both share a budget exactly if they name the same, whatever their subjects. */
  lemma OneBudgetPerBook(subject: string, a: Envelope, other: string, b: Envelope)
    requires TrimSpace(a.venue) != "" && TrimSpace(a.instrument) != "" && '|' !in ToLower(TrimSpace(a.venue))
    requires TrimSpace(b.venue) != "" && TrimSpace(b.instrument) != "" && '|' !in ToLower(TrimSpace(b.venue))
    ensures Partition(subject, a) == Partition(other, b) <==>
            && ToLower(TrimSpace(a.venue)) == ToLower(TrimSpace(b.venue))
            && ToUpper(TrimSpace(a.instrument)) == ToUpper(TrimSpace(b.instrument))
  {
    var v, i := ToLower(TrimSpace(a.venue)), ToUpper(TrimSpace(a.instrument));
    var v', i' := ToLower(TrimSpace(b.venue)), ToUpper(TrimSpace(b.instrument));
    PartitionIsBook(subject, a, v, i);
    PartitionIsBook(other, b, v', i');
    if Partition(subject, a) == Partition(other, b) {
      SplitAtSeparator('|', v, i, v', i');
    }
  }

  /** The quarantine step: what it does, and the decision that comes out of it. */
  function Quarantine(d: Delivery, env: Envelope, decision: Decision): (seq<Effect>, Decision) {
    if decision.quarantine && !IsQuarantine(d.subject, env)
    then ([Quarantined(d.published)], AfterPublish(decision, d.published))
    else ([], decision)
  }

  /** ackWithDisposition */
  function Settle(d: Delivery, decision: Decision): seq<Effect> {
    if d.stoppedAtAck then [] else [Disposed(decision.disposition)]
  }

  datatype Outcome = Outcome(tracker: Tracker, effects: seq<Effect>, call: Option<Call>)

  /** consumeOne */
  function Consume(c: Config, t: Tracker, d: Delivery): Outcome
    requires ValidConfig(c) && t.next < |t.ring|
  {
    if BelongsToOther(c.hash, d.subject, c.groups, c.mine) then Outcome(t, [Disposed(Ack)], None)
    else
      match d.decoded
      case Broken(p) =>
        var (tried, decision) := Quarantine(d, NO_ENVELOPE, ClassifyDecode(p));
        Outcome(t, tried + Settle(d, decision), None)
      case Readable(env) =>
        if d.stopped then Outcome(t, [Handled(d.handled)], None)
        else
          var (tried, decision) := Quarantine(d, env, Classify(d.handled, env));
          var key := Partition(d.subject, env);
          var r := ApplyBudget(t, c.budget, d.delivered, key, decision);
          Outcome(r.tracker, [Handled(d.handled)] + tried + Settle(d, r.decision),
                  Some(Call(key, d.delivered, decision, r.decision, r.evicted)))
  }

  // ---------------------------------------------------------------- what the policy decides

  /** Only a delivery without a problem is acknowledged, only poison is quarantined, and only poison is terminated here. */
  lemma ClassifyShape(problem: Option<Problem>, env: Envelope)
    ensures var d := Classify(problem, env);
            && (d.disposition == Ack <==> problem.None?)
            && (d.quarantine <==> d.disposition == Term)
            && (d.disposition == Nak ==> d == RETRY)
  {
  }

  /** The details or the message name one of the four reasons for which retrying is no use. */
  ghost predicate NamesPoison(p: Problem) {
    if p.reasonCode.Some? then
      ToUpper(TrimSpace(p.reasonCode.value)) in
        {"UNKNOWN_EVENT_TYPE", "UNKNOWN_EVENT_VERSION", "DECODE_FAILED", "VALIDATION_FAILED"}
    else
      || (p.reason.Some? &&
          (|| Mentions(p.reason.value, "unknown_event_type") || Mentions(p.reason.value, "missing_payload_codec")
           || Mentions(p.reason.value, "json_fallback_decode") || Mentions(p.reason.value, "unknown_content_type")))
      || var message := ToLower(TrimSpace(p.message));
         || Mentions(message, "unhandled envelope type") || Mentions(message, "unsupported envelope version")
         || Mentions(message, "decode") || Mentions(message, "unmarshal")
  }

  /** One of the three known types in a version after the first. */
  ghost predicate TooNew(env: Envelope) {
    env.version >= 2 && ToLower(TrimSpace(env.typ)) in {"marketdata.bookdelta", "marketdata.trade", "marketdata.raw"}
  }

  /** A problem that is the message's own fault, and not marked as passing. */
  ghost predicate OwnFault(p: Problem) {
    !p.retryable &&
    p.code in {ValidationFailedCode, InvalidArgument, NotFound, Conflict, OutOfOrder, Duplicate, IntegrityViolation}
  }

  /** Retrying cannot cure the problem. */
  ghost predicate IsPoison(p: Problem, env: Envelope) {
    NamesPoison(p) || TooNew(env) || OwnFault(p)
  }

  lemma ReasonIsPoison(p: Problem)
    ensures NamesPoison(p) <==> ReasonOf(p).Some? && ReasonOf(p).value in {UnknownType, UnknownVersion, DecodeFailed, ValidationFailed}
  {
    var message := ToLower(TrimSpace(p.message));
    ContainsMeans(message, "unhandled envelope type");
    ContainsMeans(message, "unsupported envelope version");
    ContainsMeans(message, "decode");
    ContainsMeans(message, "unmarshal");
    if p.reason.Some? {
      ContainsMeans(p.reason.value, "unknown_event_type");
      ContainsMeans(p.reason.value, "missing_payload_codec");
      ContainsMeans(p.reason.value, "json_fallback_decode");
      ContainsMeans(p.reason.value, "unknown_content_type");
    }
  }

  /** Without a problem a message is acknowledged, poison is quarantined and terminated, everything else is retried. */
  lemma PoisonExactly(problem: Option<Problem>, env: Envelope)
    ensures var d := Classify(problem, env);
            && (problem.None? ==> d.disposition == Ack && !d.quarantine)
            && (problem.Some? && IsPoison(problem.value, env) ==> d.disposition == Term && d.quarantine)
            && (problem.Some? && !IsPoison(problem.value, env) ==> d.disposition == Nak && !d.quarantine)
  {
    if problem.Some? {
      ReasonIsPoison(problem.value);
    }
  }

  /** Every retry the handler path can decide on falls under the budget. */
  lemma RetriesAreBudgeted(d: Delivery, env: Envelope)
    ensures var decision := Quarantine(d, env, Classify(d.handled, env)).1;
            decision.disposition == Nak ==> BudgetReason(decision.reason)
  {
    ClassifyShape(d.handled, env);
  }

  lemma {:induction false} TrimLeftKeeps(s: string, i: nat)
    requires i < |s| && !IsSpace(s[i])
    ensures TrimLeft(s) != ""
  {
    if IsSpace(s[0]) { TrimLeftKeeps(s[1..], i - 1); }
  }

  lemma {:induction false} TrimRightKeeps(s: string)
    requires s != "" && !IsSpace(s[0])
    ensures TrimRight(s) != ""
  {
    if IsSpace(s[|s| - 1]) { TrimRightKeeps(s[..|s| - 1]); }
  }

  lemma BarIsNotBlank(a: string, b: string)
    ensures !Blank(Key(a + "|" + b))
  {
    var s := a + "|" + b;
    assert s[|a|] == '|';
    TrimLeftKeeps(s, |a|);
    TrimLeftSolid(s);
    TrimRightKeeps(TrimLeft(s));
  }

  lemma PartitionIsNotBlank(subject: string, env: Envelope)
    ensures !Blank(Partition(subject, env))
  {
    var (subjectVenue, subjectInstrument) := SubjectBook(subject);
    var venue := OrUnknown(ToLower(TrimSpace(env.venue)), ToLower(TrimSpace(subjectVenue)));
    var instrument := OrUnknown(ToUpper(TrimSpace(env.instrument)), ToUpper(TrimSpace(subjectInstrument)));
    BarIsNotBlank(OrUnknown(venue, "unknown"), OrUnknown(instrument, "unknown"));
  }

  // ---------------------------------------------------------------- soundness

  /** No retry is left: by the delivery count, or by the partition's retries in a row. */
  ghost predicate OutOfRetries(budget: int, calls: seq<Call>, delivered: Option<int>, k: Key) {
    if delivered.Some? then delivered.value >= budget else Streak(calls, k) == budget - 1
  }

  ghost predicate Spent(c: Config, calls: seq<Call>, d: Delivery) {
    d.decoded.Readable? && OutOfRetries(c.budget, calls, d.delivered, Partition(d.subject, d.decoded.env))
  }

  ghost predicate Foreign(c: Config, d: Delivery)
    requires ValidConfig(c)
  {
    c.groups >= 2 && c.mine != c.hash(KeyText(d.subject)) as int % c.groups
  }

  function EnvelopeOf(d: Delivery): Envelope {
    if d.decoded.Readable? then d.decoded.env else NO_ENVELOPE
  }

  /** The message came out of quarantine: by its type, or by its subject. */
  ghost predicate FromQuarantine(d: Delivery) {
    var subject := ToLower(TrimSpace(d.subject));
    ToLower(TrimSpace(EnvelopeOf(d).typ)) == "quarantine" || (|subject| >= 14 && subject[..14] == "quarantine.v1.")
  }

  /** Quarantine was tried and refused for now. */
  ghost predicate PassingFailure(d: Delivery) {
    d.published.Some? && d.published.value.retryable
  }

  ghost predicate Poisonous(d: Delivery) {
    d.handled.Some? && IsPoison(d.handled.value, EnvelopeOf(d))
  }

  /** Disposing is the last thing done with a delivery, and done at most once. */
  ghost predicate DisposedLast(effects: seq<Effect>) {
    forall i :: 0 <= i < |effects| && effects[i].Disposed? ==> i == |effects| - 1
  }

  ghost predicate NotHandled(effects: seq<Effect>) {
    forall i :: 0 <= i < |effects| ==> !effects[i].Handled?
  }

  /** The handler's problem is retried: there is budget left, and it is no poison, or poison that quarantine could not take yet. */
  ghost predicate Retried(c: Config, calls: seq<Call>, d: Delivery) {
    d.handled.Some? && !Spent(c, calls, d) && (Poisonous(d) ==> !FromQuarantine(d) && PassingFailure(d))
  }

  /** A message that does not decode never reaches the handler; it is quarantined, and retried only if that fails for now. */
  ghost predicate BrokenRightly(d: Delivery, effects: seq<Effect>) {
    && NotHandled(effects) && Disposed(Ack) !in effects
    && (Quarantined(d.published) in effects <==> !FromQuarantine(d))
    && (Disposed(Nak) in effects <==> !d.stoppedAtAck && !FromQuarantine(d) && PassingFailure(d))
    && (Disposed(Term) in effects <==> !d.stoppedAtAck && (FromQuarantine(d) || !PassingFailure(d)))
  }

  /** The handler is called first and once. If shutdown is seen after it nothing else is done. */
  ghost predicate HandledRightly(c: Config, calls: seq<Call>, d: Delivery, effects: seq<Effect>) {
    && effects != [] && effects[0] == Handled(d.handled) && NotHandled(effects[1..])
    && (d.stopped ==> |effects| == 1)
    && (!d.stopped ==>
        && (Quarantined(d.published) in effects <==> Poisonous(d) && !FromQuarantine(d))
        && (Disposed(Ack) in effects <==> !d.stoppedAtAck && d.handled.None?)
        && (Disposed(Nak) in effects <==> !d.stoppedAtAck && Retried(c, calls, d))
        && (Disposed(Term) in effects <==> !d.stoppedAtAck && d.handled.Some? && !Retried(c, calls, d)))
  }

  ghost predicate Sound(c: Config, calls: seq<Call>, d: Delivery, effects: seq<Effect>)
    requires ValidConfig(c)
  {
    && DisposedLast(effects)
    && (Foreign(c, d) ==> effects == [Disposed(Ack)])
    && (!Foreign(c, d) && d.decoded.Broken? ==> BrokenRightly(d, effects))
    && (!Foreign(c, d) && d.decoded.Readable? ==> HandledRightly(c, calls, d, effects))
  }

  lemma QuarantineIsFrom(d: Delivery)
    ensures IsQuarantine(d.subject, EnvelopeOf(d)) <==> FromQuarantine(d)
  {
  }

  lemma BrokenIsSound(c: Config, t: Tracker, calls: seq<Call>, d: Delivery)
    requires ValidConfig(c) && t.next < |t.ring| && d.decoded.Broken? && !Foreign(c, d)
    ensures Sound(c, calls, d, Consume(c, t, d).effects)
  {
    QuarantineIsFrom(d);
  }

  /** What the budget decides, told from the log of calls alone. */
  ghost function Budgeted(budget: int, calls: seq<Call>, delivered: Option<int>, k: Key, d: Decision): Decision {
    if d.disposition == Nak && BudgetReason(d.reason) && OutOfRetries(budget, calls, delivered, k) then EXHAUSTED else d
  }

  lemma BudgetFromLog(t: Tracker, calls: seq<Call>, budget: int, delivered: Option<int>, k: Key, d: Decision)
    requires Tracks(t, calls, budget) && budget >= 1 && !Blank(k)
    ensures ApplyBudget(t, budget, delivered, k, d).decision == Budgeted(budget, calls, delivered, k, d)
  {
    assert Counts(t, calls, budget, k);
  }

  lemma ReadableIsSound(c: Config, t: Tracker, calls: seq<Call>, d: Delivery)
    requires ValidConfig(c) && Tracks(t, calls, c.budget) && d.decoded.Readable? && !Foreign(c, d) && !d.stopped
    ensures Sound(c, calls, d, Consume(c, t, d).effects)
  {
    var env := d.decoded.env;
    var (tried, decision) := Quarantine(d, env, Classify(d.handled, env));
    var key := Partition(d.subject, env);
    PartitionIsNotBlank(d.subject, env);
    RetriesAreBudgeted(d, env);
    BudgetFromLog(t, calls, c.budget, d.delivered, key, decision);
    var r := ApplyBudget(t, c.budget, d.delivered, key, decision);
    SettledIsSound(c, calls, d, decision, r.decision);
  }

  lemma SettledIsSound(c: Config, calls: seq<Call>, d: Delivery, decision: Decision, final: Decision)
    requires ValidConfig(c) && d.decoded.Readable? && !Foreign(c, d) && !d.stopped
    requires decision == Quarantine(d, d.decoded.env, Classify(d.handled, d.decoded.env)).1
    requires final == if decision.disposition == Nak && Spent(c, calls, d) then EXHAUSTED else decision
    ensures var tried := Quarantine(d, d.decoded.env, Classify(d.handled, d.decoded.env)).0;
            Sound(c, calls, d, [Handled(d.handled)] + tried + Settle(d, final))
  {
    ClassifyShape(d.handled, d.decoded.env);
    PoisonExactly(d.handled, d.decoded.env);
    QuarantineIsFrom(d);
  }

  lemma ConsumeIsSound(c: Config, t: Tracker, calls: seq<Call>, d: Delivery)
    requires ValidConfig(c) && Tracks(t, calls, c.budget)
    ensures Sound(c, calls, d, Consume(c, t, d).effects)
  {
    if !Foreign(c, d) {
      if d.decoded.Broken? {
        BrokenIsSound(c, t, calls, d);
      } else if !d.stopped {
        ReadableIsSound(c, t, calls, d);
      }
    }
  }

  // ---------------------------------------------------------------- whole runs

  ghost predicate Steps(c: Config, t: Tracker, d: Delivery, t': Tracker)
    requires ValidConfig(c)
  {
    t.next < |t.ring| && t' == Consume(c, t, d).tracker
  }

  ghost predicate StepAt(c: Config, ds: seq<Delivery>, run: seq<Tracker>, i: nat)
    requires ValidConfig(c) && i < |ds| && |run| == |ds| + 1
  {
    Steps(c, run[i], ds[i], run[i + 1])
  }

  ghost predicate IsRun(c: Config, ds: seq<Delivery>, run: seq<Tracker>) {
    && ValidConfig(c) && |run| == |ds| + 1 && |run[0].ring| > 0 && run[0] == NewTracker(|run[0].ring|)
    && forall i :: 0 <= i < |ds| ==> StepAt(c, ds, run, i)
  }

  /** What went through the budget before the n-th delivery. */
  ghost function CallsBefore(c: Config, ds: seq<Delivery>, run: seq<Tracker>, n: nat): seq<Call>
    requires IsRun(c, ds, run) && n <= |ds|
  {
    if n == 0 then []
    else
      assert StepAt(c, ds, run, n - 1);
      var call := Consume(c, run[n - 1], ds[n - 1]).call;
      CallsBefore(c, ds, run, n - 1) + (if call.Some? then [call.value] else [])
  }

  lemma {:induction false} RunTracks(c: Config, ds: seq<Delivery>, run: seq<Tracker>, n: nat)
    requires IsRun(c, ds, run) && n <= |ds|
    ensures Tracks(run[n], CallsBefore(c, ds, run, n), c.budget)
  {
    if n == 0 {
      NewIsBijective(|run[0].ring|);
    } else {
      RunTracks(c, ds, run, n - 1);
      assert StepAt(c, ds, run, n - 1);
      ConsumeTracks(c, run[n - 1], CallsBefore(c, ds, run, n - 1), ds[n - 1]);
    }
  }

  lemma ConsumeTracks(c: Config, t: Tracker, calls: seq<Call>, d: Delivery)
    requires ValidConfig(c) && Tracks(t, calls, c.budget)
    ensures var o := Consume(c, t, d);
            Tracks(o.tracker, calls + (if o.call.Some? then [o.call.value] else []), c.budget)
  {
    var o := Consume(c, t, d);
    if o.call.Some? {
      var env := d.decoded.env;
      var decision := Quarantine(d, env, Classify(d.handled, env)).1;
      PartitionIsNotBlank(d.subject, env);
      ApplyTracks(t, calls, c.budget, d.delivered, Partition(d.subject, env), decision);
    } else {
      assert calls + [] == calls;
    }
  }

  /**
   * In every run: another shard's message is acknowledged and nothing else. A message that does not decode is quarantined,
   * and retried only if that fails for now. Any other is handled first; then, unless shutdown is seen, it is acknowledged
   * exactly if there was no problem, quarantined exactly if the problem is poison, and retried exactly if there is budget
   * left and the problem is no poison or quarantine failed for now; otherwise it is terminated.
   */
  lemma EveryDispositionIsSound(c: Config, ds: seq<Delivery>, run: seq<Tracker>, n: nat)
    requires IsRun(c, ds, run) && n < |ds|
    ensures StepAt(c, ds, run, n)
    ensures Sound(c, CallsBefore(c, ds, run, n), ds[n], Consume(c, run[n], ds[n]).effects)
  {
    assert StepAt(c, ds, run, n);
    RunTracks(c, ds, run, n);
    ConsumeIsSound(c, run[n], CallsBefore(c, ds, run, n), ds[n]);
  }

  /** A message that does not decode is outside the budget: whether it is retried has nothing to do with its delivery count. */
  lemma DecodeFailuresAreNotBudgeted(c: Config, t: Tracker, d: Delivery)
    requires ValidConfig(c) && t.next < |t.ring| && !Foreign(c, d) && d.decoded.Broken?
    ensures Disposed(Nak) in Consume(c, t, d).effects <==>
            d.published.Some? && d.published.value.retryable && !IsQuarantine(d.subject, NO_ENVELOPE) && !d.stoppedAtAck
    ensures Consume(c, t, d).tracker == t
  {
  }

  /** While quarantine keeps failing for now it is retried for ever: here a message, delivered any number of times over. */
  lemma {:induction false} RetriedForEver(c: Config, d: Delivery, n: nat) returns (ds: seq<Delivery>, run: seq<Tracker>)
    requires ValidConfig(c) && !Foreign(c, d) && d.decoded.Broken? && !d.stoppedAtAck
    requires d.published.Some? && d.published.value.retryable && !IsQuarantine(d.subject, NO_ENVELOPE)
    ensures IsRun(c, ds, run) && |ds| == n
    ensures forall i :: 0 <= i < n ==> ds[i] == d.(delivered := Some(i + 1)) && StepAt(c, ds, run, i) &&
                                       Disposed(Nak) in Consume(c, run[i], ds[i]).effects
    ensures run[n] == run[0]
  {
    if n == 0 {
      return [], [NewTracker(1)];
    }
    var ds0, run0 := RetriedForEver(c, d, n - 1);
    var again := d.(delivered := Some(n));
    ds, run := ds0 + [again], run0 + [run0[n - 1]];
    DecodeFailuresAreNotBudgeted(c, run0[n - 1], again);
    forall i | 0 <= i < n
      ensures ds[i] == d.(delivered := Some(i + 1)) && StepAt(c, ds, run, i)
      ensures Disposed(Nak) in Consume(c, run[i], ds[i]).effects
    {
      assert i < n - 1 ==> StepAt(c, ds0, run0, i);
    }
  }

  // ---------------------------------------------------------------- the object

  class JetStreamConsumer {
    const c: Config
    const retryBudget: RetryBudgetTracker

    /** Every decision put through the budget so far. */
    ghost var calls: seq<Call>

    ghost predicate Valid()
      reads this, retryBudget, retryBudget.ring
    {
      && ValidConfig(c) && c.groups >= 1 && c.budget <= MAX_BUDGET && retryBudget.ring.Length == FALLBACK_CAPACITY
      && Tracks(retryBudget.View(), calls, c.budget)
    }

    /** What was done, what the tracker holds and what was logged are what the specification says of this delivery. */
    ghost predicate Performs(t: Tracker, before: seq<Call>, d: Delivery, effects: seq<Effect>)
      requires ValidConfig(c) && t.next < |t.ring|
      reads this, retryBudget, retryBudget.ring
    {
      var o := Consume(c, t, d);
      && effects == o.effects && retryBudget.View() == o.tracker
      && calls == before + (if o.call.Some? then [o.call.value] else [])
    }

    /** NewConsumer: the budget comes from the delivery limit, the tracker has its one size, and no sharding is one group */
    constructor (hash: string -> uint32, groups: int, mine: int, maxDeliver: int)
      requires groups < 0x1_0000_0000
      ensures Valid() && calls == [] && fresh(retryBudget) && fresh(retryBudget.ring)
      ensures c == Config(hash, if groups <= 0 then 1 else groups, mine, Budget(maxDeliver))
      ensures maxDeliver > 0 ==> c.budget <= maxDeliver
    {
      c := Config(hash, if groups <= 0 then 1 else groups, mine, Budget(maxDeliver));
      retryBudget := new RetryBudgetTracker(FALLBACK_CAPACITY);
      calls := [];
    }

    /** The tracker's part of applyTransientRetryBudget. */
    method DecideRetry(delivered: Option<int>, key: Key, decision: Decision) returns (r: Decision)
      requires Bijective(retryBudget.View()) && c.budget >= 1
      modifies retryBudget, retryBudget.ring
      ensures var a := ApplyBudget(old(retryBudget.View()), c.budget, delivered, key, decision);
              retryBudget.View() == a.tracker && r == a.decision
    {
      if decision.disposition != Nak {
        retryBudget.ResetPartition(key);
        return decision;
      }
      if !BudgetReason(decision.reason) || c.budget <= 0 {
        return decision;
      }
      if delivered.Some? {
        if delivered.value >= c.budget {
          retryBudget.ResetPartition(key);
          return EXHAUSTED;
        }
        return decision;
      }
      var attempts, _ := retryBudget.IncrementPartition(key);
      if attempts >= c.budget {
        retryBudget.ResetPartition(key);
        return EXHAUSTED;
      }
      return decision;
    }

    /** applyTransientRetryBudget: what it decides follows from the calls so far, whatever the tracker has forgotten */
    method ApplyTransientBudget(d: Delivery, env: Envelope, decision: Decision) returns (r: Decision)
      requires Valid()
      modifies `calls, retryBudget, retryBudget.ring
      ensures Valid()
      ensures r == Budgeted(c.budget, old(calls), d.delivered, Partition(d.subject, env), decision)
      ensures var t, key := old(retryBudget.View()), Partition(d.subject, env);
              && retryBudget.View() == ApplyBudget(t, c.budget, d.delivered, key, decision).tracker
              && calls == old(calls) + [CallOf(t, c.budget, d.delivered, key, decision)] && calls[|old(calls)|].after == r
    {
      var key := Partition(d.subject, env);
      ghost var t, e := retryBudget.View(), CallOf(retryBudget.View(), c.budget, d.delivered, key, decision);
      PartitionIsNotBlank(d.subject, env);
      BudgetFromLog(t, calls, c.budget, d.delivered, key, decision);
      ApplyTracks(t, calls, c.budget, d.delivered, key, decision);
      r := DecideRetry(d.delivered, key, decision);
      calls := calls + [e];
    }

    /** consumeOne on a message that was read and handled */
    method Finish(d: Delivery) returns (effects: seq<Effect>)
      requires Valid() && !Foreign(c, d) && d.decoded.Readable? && !d.stopped
      modifies `calls, retryBudget, retryBudget.ring
      ensures Valid() && Sound(c, old(calls), d, effects)
      ensures Performs(old(retryBudget.View()), old(calls), d, effects)
    {
      var env := d.decoded.env;
      effects := [Handled(d.handled)];
      var decision := Classify(d.handled, env);
      if decision.quarantine && !IsQuarantine(d.subject, env) {
        effects := effects + [Quarantined(d.published)];
        decision := AfterPublish(decision, d.published);
      }
      RetriesAreBudgeted(d, env);
      QuarantineIsFrom(d);
      var final := ApplyTransientBudget(d, env, decision);
      SettledIsSound(c, old(calls), d, decision, final);
      assert effects == [Handled(d.handled)] + Quarantine(d, env, Classify(d.handled, env)).0;
      effects := effects + Settle(d, final);
    }

    /** consumeOne, with what it did in order */
    method ConsumeOne(d: Delivery) returns (effects: seq<Effect>)
      requires Valid()
      modifies `calls, retryBudget, retryBudget.ring
      ensures Valid() && Sound(c, old(calls), d, effects)
      ensures Performs(old(retryBudget.View()), old(calls), d, effects)
    {
      if BelongsToOther(c.hash, d.subject, c.groups, c.mine) {
        return [Disposed(Ack)];
      }
      QuarantineIsFrom(d);
      if d.decoded.Broken? {
        effects := [];
        var decision := ClassifyDecode(d.decoded.problem);
        if decision.quarantine && !IsQuarantine(d.subject, NO_ENVELOPE) {
          effects := effects + [Quarantined(d.published)];
          decision := AfterPublish(decision, d.published);
        }
        effects := effects + Settle(d, decision);
        return;
      }
      if d.stopped {
        return [Handled(d.handled)];
      }
      effects := Finish(d);
    }
  }
}
