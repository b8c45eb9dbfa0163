/** Composing a signal's raw text from the structured fields of its type, and the check that
    the type's required field is filled in before composing. */
module ComposeSignal {
  import opened Wrappers
  import opened Collections
  import opened Text

  // ─── Signal types ────────────────────────────────────────

  datatype SignalType = Conversation | DataSignal | Feedback | Competitive | Internal

  /** One entry of `SIGNAL_TYPES`; the icon is not modelled. */
  datatype SignalTypeConfig = SignalTypeConfig(
    signalType: SignalType, caption: string, description: string, defaultSource: string,
    showSource: bool, showCustomer: bool, showArr: bool, customerLabel: Option<string>)

  /** `SIGNAL_TYPES`. */
  const SignalTypes: seq<SignalTypeConfig> := [
    SignalTypeConfig(Conversation, "Conversation", "Calls, chats, interviews, tickets", "",
      true, true, true, None),
    SignalTypeConfig(DataSignal, "Data", "Metric anomalies, dropoffs", "other",
      false, false, false, None),
    SignalTypeConfig(Feedback, "Feedback", "NPS, surveys, feature requests", "other",
      false, true, true, None),
    SignalTypeConfig(Competitive, "Competitive", "Market moves, win/loss", "other",
      false, true, true, Some("Affected Account")),
    SignalTypeConfig(Internal, "Internal", "Team observations, research", "other",
      false, false, false, None)
  ]

  /** Some entry is for the type. */
  predicate Listed(t: SignalType) {
    exists c | c in SignalTypes :: c.signalType == t
  }

  /** Every signal type has exactly one entry. Only a conversation asks for the source and
      has no default source; the customer and ARR fields always come together; only the
      competitive type renames the customer field. */
  lemma SignalTypesTable()
    ensures forall t: SignalType :: Listed(t)
    ensures forall i, j | 0 <= i < j < |SignalTypes| :: SignalTypes[i].signalType != SignalTypes[j].signalType
    ensures forall c | c in SignalTypes ::
      && (c.showSource <==> c.signalType == Conversation)
      && (c.defaultSource == "" <==> c.signalType == Conversation)
      && c.showCustomer == c.showArr
      && (c.customerLabel.Some? <==> c.signalType == Competitive)
  {
    forall t: SignalType ensures Listed(t) {
      match t
      case Conversation => assert SignalTypes[0] in SignalTypes;
      case DataSignal => assert SignalTypes[1] in SignalTypes;
      case Feedback => assert SignalTypes[2] in SignalTypes;
      case Competitive => assert SignalTypes[3] in SignalTypes;
      case Internal => assert SignalTypes[4] in SignalTypes;
    }
  }

  // ─── Structured fields ───────────────────────────────────

  datatype Quote = Quote(speaker: string, quote: string)
  datatype ConversationFields = ConversationFields(context: string, quotes: seq<Quote>, summary: string)
  datatype DataFields = DataFields(metric: string, currentValue: string, expected: string, context: string)
  datatype FeedbackFields = FeedbackFields(verbatim: string, feedbackType: string, score: string, context: string)
  datatype CompetitiveFields = CompetitiveFields(competitor: string, event: string, details: string, sourceInfo: string)
  datatype InternalFields = InternalFields(observation: string, origin: string, whoReported: string)

  /** `StructuredFields`: the fields of one signal type. */
  datatype StructuredFields =
    | ConversationInput(conversation: ConversationFields)
    | DataInput(data: DataFields)
    | FeedbackInput(feedback: FeedbackFields)
    | CompetitiveInput(competitive: CompetitiveFields)
    | InternalInput(internal: InternalFields)

  /** The separator between parts. */
  const PartBreak: string := "\n\n"

  /** `<opening><s trimmed>]`, such as `[Context: …]`, or nothing when `s` is blank. */
  function Tagged(opening: string, s: string): seq<string> {
    if Blank(s) then [] else [opening + Trim(s) + "]"]
  }

  /** `s` trimmed, or nothing when `s` is blank. */
  function Plain(s: string): seq<string> {
    if Blank(s) then [] else [Trim(s)]
  }

  /** No part is the empty string. */
  predicate NonEmptyParts(parts: seq<string>) {
    forall k | 0 <= k < |parts| :: parts[k] != ""
  }

  /** Non-empty parts joined by blank lines give an empty text exactly when there are no parts. */
  lemma JoinedEmpty(parts: seq<string>)
    requires NonEmptyParts(parts)
    ensures Join(parts, PartBreak) == "" <==> parts == []
  {
    JoinEmpty(parts, PartBreak);
  }

  // ─── composeConversation ─────────────────────────────────

  /** A quote's line: `"<quote>" — <speaker>`, a blank speaker shown as "Unknown". */
  function QuoteLine(q: Quote): (line: string)
    ensures line != ""
  {
    var speaker := if Blank(q.speaker) then "Unknown" else Trim(q.speaker);
    "\"" + Trim(q.quote) + "\" \U{2014} " + speaker
  }

  /** The lines of the quotes that are not blank, in order. */
  function QuoteLines(qs: seq<Quote>): (r: seq<string>)
    ensures |r| <= |qs| && NonEmptyParts(r)
    ensures r == [] <==> forall k | 0 <= k < |qs| :: Blank(qs[k].quote)
    decreases |qs|
  {
    if qs == [] then []
    else
      var init := qs[..|qs| - 1];
      var q := qs[|qs| - 1];
      var rest := QuoteLines(init);
      assert forall k | 0 <= k < |init| :: init[k] == qs[k];
      if Blank(q.quote) then rest else rest + [QuoteLine(q)]
  }

  lemma QuoteLinesSnoc(qs: seq<Quote>, q: Quote)
    ensures QuoteLines(qs + [q]) == QuoteLines(qs) + (if Blank(q.quote) then [] else [QuoteLine(q)])
  {
    assert (qs + [q])[..|qs|] == qs;
  }

  /** The quote lines of a prefix grow by the next quote's line, if it is not blank. */
  lemma QuoteLinesPrefix(qs: seq<Quote>, i: nat)
    requires i < |qs|
    ensures QuoteLines(qs[..i + 1]) == QuoteLines(qs[..i]) + (if Blank(qs[i].quote) then [] else [QuoteLine(qs[i])])
  {
    assert qs[..i + 1] == qs[..i] + [qs[i]];
    QuoteLinesSnoc(qs[..i], qs[i]);
  }

  /** The line of each quote, in order. */
  function Lines(qs: seq<Quote>): (r: seq<string>)
    ensures |r| == |qs| && forall k | 0 <= k < |qs| :: r[k] == QuoteLine(qs[k])
  {
    seq(|qs|, k requires 0 <= k < |qs| => QuoteLine(qs[k]))
  }

  /** The quote lines are the lines of the non-blank quotes, one each, in order. */
  lemma {:induction false} QuoteLinesInOrder(qs: seq<Quote>)
    ensures QuoteLines(qs) == Lines(Filter(qs, (q: Quote) => !Blank(q.quote)))
    decreases |qs|
  {
    var keep := (q: Quote) => !Blank(q.quote);
    if qs != [] {
      var init := qs[..|qs| - 1];
      var q := qs[|qs| - 1];
      assert qs == init + [q];
      QuoteLinesInOrder(init);
      FilterSnoc(init, q, keep);
      if keep(q) {
        LinesSnoc(Filter(init, keep), q);
      }
    }
  }

  lemma LinesSnoc(qs: seq<Quote>, q: Quote)
    ensures Lines(qs + [q]) == Lines(qs) + [QuoteLine(q)]
  {
  }

  /** The conversation's parts: the context, each non-blank quote, then the takeaway. */
  function ConversationParts(f: ConversationFields): (r: seq<string>)
    ensures NonEmptyParts(r)
  {
    Tagged("[Context: ", f.context) + QuoteLines(f.quotes) + Tagged("[Takeaway: ", f.summary)
  }

  /** The loop over the quotes: push the line of each non-blank quote, in order. */
  method PushQuoteLines(qs: seq<Quote>) returns (lines: seq<string>)
    ensures lines == QuoteLines(qs)
  {
    lines := [];
    for i := 0 to |qs|
      invariant lines == QuoteLines(qs[..i])
    {
      var q := qs[i];
      QuoteLinesPrefix(qs, i);
      if !Blank(q.quote) {
        var speaker := if Blank(q.speaker) then "Unknown" else Trim(q.speaker);
        var line := "\"" + Trim(q.quote) + "\" \U{2014} " + speaker;
        assert line == QuoteLine(q);
        lines := lines + [line];
      }
    }
    assert qs[..|qs|] == qs;
  }

  /** `composeConversation(f)`: push the parts one by one, then join them. */
  method ComposeConversation(f: ConversationFields) returns (text: string)
    ensures text == Join(ConversationParts(f), PartBreak)
  {
    var parts: seq<string> := [];
    if !Blank(f.context) {
      parts := parts + ["[Context: " + Trim(f.context) + "]"];
    }
    var lines := PushQuoteLines(f.quotes);
    parts := parts + lines;
    if !Blank(f.summary) {
      parts := parts + ["[Takeaway: " + Trim(f.summary) + "]"];
    }
    assert parts == ConversationParts(f);
    text := Join(parts, PartBreak);
  }

  // ─── composeData ─────────────────────────────────────────

  /** The metric line: `Metric: …`, then `\nCurrent: …` when a current value is given, with
      ` (expected: …)` after it when an expectation is given. */
  function MetricLine(f: DataFields): string {
    var current :=
      if Blank(f.currentValue) then ""
      else "\nCurrent: " + Trim(f.currentValue) + (if Blank(f.expected) then "" else " (expected: " + Trim(f.expected) + ")");
    "Metric: " + Trim(f.metric) + current
  }

  /** The data signal's parts: the metric line when a metric is named, then the context. */
  function DataParts(f: DataFields): (r: seq<string>)
    ensures NonEmptyParts(r)
  {
    (if Blank(f.metric) then [] else [MetricLine(f)]) + Plain(f.context)
  }

  /** The current value and the expectation only ever appear inside the metric line, and the
      expectation only after a current value. */
  lemma DataCurrentOnlyWithMetric(f: DataFields)
    ensures Blank(f.metric) ==> DataParts(f) == Plain(f.context)
    ensures Blank(f.currentValue) ==> MetricLine(f) == "Metric: " + Trim(f.metric)
    ensures !Blank(f.currentValue) ==>
      var m := "Metric: " + Trim(f.metric) + "\nCurrent: " + Trim(f.currentValue);
      |m| <= |MetricLine(f)| && MetricLine(f)[..|m|] == m
  {
  }

  // ─── composeFeedback ─────────────────────────────────────

  /** The header entries: the feedback type when non-empty (untrimmed), then `Score: …`. */
  function FeedbackHeader(f: FeedbackFields): seq<string> {
    (if f.feedbackType != "" then [f.feedbackType] else []) + (if Blank(f.score) then [] else ["Score: " + Trim(f.score)])
  }

  /** The feedback signal's parts: the `[Feedback: …]` header when it has entries, the quoted
      verbatim text, then the context. */
  function FeedbackParts(f: FeedbackFields): (r: seq<string>)
    ensures NonEmptyParts(r)
  {
    var header := FeedbackHeader(f);
    (if |header| > 0 then ["[Feedback: " + Join(header, ", ") + "]"] else [])
      + (if Blank(f.verbatim) then [] else ["\"" + Trim(f.verbatim) + "\""])
      + Tagged("[Context: ", f.context)
  }

  /** The header is left out exactly when there is neither a type nor a score; it lists the
      type first. */
  lemma FeedbackHeaderShape(f: FeedbackFields)
    ensures FeedbackHeader(f) == [] <==> f.feedbackType == "" && Blank(f.score)
    ensures f.feedbackType != "" ==> FeedbackHeader(f)[0] == f.feedbackType
    ensures f.feedbackType != "" && !Blank(f.score) ==>
      Join(FeedbackHeader(f), ", ") == f.feedbackType + ", Score: " + Trim(f.score)
  {
    if f.feedbackType != "" && !Blank(f.score) {
      var h := FeedbackHeader(f);
      assert h == [f.feedbackType, "Score: " + Trim(f.score)];
      assert h[1..] == ["Score: " + Trim(f.score)];
    }
  }

  // ─── composeCompetitive ──────────────────────────────────

  /** `Competitor: …`, then `\nSignal type: …` when an event is chosen. */
  function CompetitorLine(f: CompetitiveFields): string {
    "Competitor: " + Trim(f.competitor) + (if f.event != "" then "\nSignal type: " + f.event else "")
  }

  /** The competitive signal's parts: the competitor line when a competitor is named, the
      details, then the source. */
  function CompetitiveParts(f: CompetitiveFields): (r: seq<string>)
    ensures NonEmptyParts(r)
  {
    (if Blank(f.competitor) then [] else [CompetitorLine(f)]) + Plain(f.details) + Tagged("[Source: ", f.sourceInfo)
  }

  /** Without a competitor the event is dropped: the parts do not depend on it. */
  lemma EventNeedsCompetitor(f: CompetitiveFields, event: string)
    requires Blank(f.competitor)
    ensures CompetitiveParts(f) == CompetitiveParts(f.(event := event))
  {
  }

  // ─── composeInternal ─────────────────────────────────────

  /** The origin and reporter entries. */
  function InternalMeta(f: InternalFields): seq<string> {
    Tagged("[Origin: ", f.origin) + Tagged("[Reported by: ", f.whoReported)
  }

  /** The internal signal's parts: the origin and reporter joined by a single line break, then
      the observation. */
  function InternalParts(f: InternalFields): (r: seq<string>)
    ensures NonEmptyParts(r)
  {
    var meta := InternalMeta(f);
    assert NonEmptyParts(meta);
    JoinEmpty(meta, "\n");
    (if |meta| > 0 then [Join(meta, "\n")] else []) + Plain(f.observation)
  }

  /** With both an origin and a reporter, the first part is the two tags on two lines. */
  lemma InternalMetaLines(f: InternalFields)
    requires !Blank(f.origin) && !Blank(f.whoReported)
    ensures InternalParts(f)[0] ==
      ("[Origin: " + Trim(f.origin) + "]") + "\n" + ("[Reported by: " + Trim(f.whoReported) + "]")
  {
    var a, b := "[Origin: " + Trim(f.origin) + "]", "[Reported by: " + Trim(f.whoReported) + "]";
    var meta := InternalMeta(f);
    assert meta == [a, b];
    JoinTwo(a, b, "\n");
    assert InternalParts(f)[0] == Join(meta, "\n");
  }

  // ─── composeRawText ──────────────────────────────────────

  /** The parts of any input. */
  function Parts(input: StructuredFields): (r: seq<string>)
    ensures NonEmptyParts(r)
  {
    match input
    case ConversationInput(f) => ConversationParts(f)
    case DataInput(f) => DataParts(f)
    case FeedbackInput(f) => FeedbackParts(f)
    case CompetitiveInput(f) => CompetitiveParts(f)
    case InternalInput(f) => InternalParts(f)
  }

  /** The text `composeRawText` returns. */
  function RawText(input: StructuredFields): string {
    Join(Parts(input), PartBreak)
  }

  /** `composeRawText(input)`: dispatch on the signal type. */
  method ComposeRawText(input: StructuredFields) returns (text: string)
    ensures text == RawText(input)
  {
    match input
    case ConversationInput(f) =>
      text := ComposeConversation(f);
    case DataInput(f) =>
      text := Join(DataParts(f), PartBreak);
    case FeedbackInput(f) =>
      text := Join(FeedbackParts(f), PartBreak);
    case CompetitiveInput(f) =>
      text := Join(CompetitiveParts(f), PartBreak);
    case InternalInput(f) =>
      text := Join(InternalParts(f), PartBreak);
  }

  /** Every field a composer reads, apart from the ones that only decorate another. */
  predicate AllBlank(input: StructuredFields) {
    match input
    case ConversationInput(f) =>
      Blank(f.context) && Blank(f.summary) && forall k | 0 <= k < |f.quotes| :: Blank(f.quotes[k].quote)
    case DataInput(f) => Blank(f.metric) && Blank(f.context)
    case FeedbackInput(f) => f.feedbackType == "" && Blank(f.score) && Blank(f.verbatim) && Blank(f.context)
    case CompetitiveInput(f) => Blank(f.competitor) && Blank(f.details) && Blank(f.sourceInfo)
    case InternalInput(f) => Blank(f.origin) && Blank(f.whoReported) && Blank(f.observation)
  }

  /** The composed text is empty exactly when every field it reads is blank. */
  lemma RawTextEmptyIff(input: StructuredFields)
    ensures RawText(input) == "" <==> AllBlank(input)
  {
    JoinedEmpty(Parts(input));
  }

  // ─── validateStructuredFields ────────────────────────────

  /** `validateStructuredFields(input)`: the message for the first required field that is
      blank, or `None`. */
  function Validate(input: StructuredFields): (r: Option<string>)
    ensures r.None? <==> match input
      case ConversationInput(f) => exists k | 0 <= k < |f.quotes| :: !Blank(f.quotes[k].quote)
      case DataInput(f) => !Blank(f.metric)
      case FeedbackInput(f) => !Blank(f.verbatim)
      case CompetitiveInput(f) => !Blank(f.competitor) && !Blank(f.details)
      case InternalInput(f) => !Blank(f.observation)
    ensures input.CompetitiveInput? && Blank(input.competitive.competitor) ==>
      r == Some("Competitor name is required")
  {
    match input
    case ConversationInput(f) =>
      var hasQuote := exists k | 0 <= k < |f.quotes| :: |Trim(f.quotes[k].quote)| > 0;
      if !hasQuote then Some("Add at least one quote") else None
    case DataInput(f) => if Blank(f.metric) then Some("Metric name is required") else None
    case FeedbackInput(f) => if Blank(f.verbatim) then Some("Paste the feedback text") else None
    case CompetitiveInput(f) =>
      if Blank(f.competitor) then Some("Competitor name is required")
      else if Blank(f.details) then Some("Details are required")
      else None
    case InternalInput(f) => if Blank(f.observation) then Some("Observation is required") else None
  }

  /** Input that passes validation composes to a non-empty text. */
  lemma ValidComposesText(input: StructuredFields)
    requires Validate(input).None?
    ensures RawText(input) != ""
  {
    RawTextEmptyIff(input);
  }
}
