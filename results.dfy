/** The results view of resume/src/Results.tsx as a pure projection from the
    navigation state (a result, or none) to what is shown: a "no data" notice,
    or a report with an optional summary panel and one card per candidate. */
module Results {
  import Wrappers
  import opened Payload

  /** The palette colours the view gives its chips. */
  datatype Color = Success | Warning | Error

  /** A chip: a short label in a colour. */
  datatype Chip = Chip(text: string, color: Color)

  /** The overall-summary panel. */
  datatype SummaryPanel = SummaryPanel(text: string, processedFiles: int, timestamp: string)

  /** One candidate card. The score is kept as the number it shows; its text
      rendering is not modelled. */
  datatype Card = Card(
    ranking: int,
    filename: string,
    score: real,
    scoreColor: Color,
    recommendation: string,
    summary: string,
    strengths: seq<Chip>,
    weaknesses: seq<Chip>,
    suggestions: Wrappers.Option<seq<string>>)

  /** What the view shows: the notice for a missing result, whose one button
      leads to `target`, or the report. */
  datatype View =
    | NoData(title: string, message: string, buttonLabel: string, target: string)
    | Report(title: string, summary: Wrappers.Option<SummaryPanel>, cards: seq<Card>)

  const NoDataTitle: string := "No Analysis Data Found"
  const NoDataMessage: string := "Please upload resumes and analyze them first."
  const BackLabel: string := "Go Back to Upload"
  const UploadPath: string := "/"
  const ReportTitle: string := "Analysis Results"

  // ---------------------------------------------------------------------------
  // Score tiers

  /** The colour of the score chip: the thresholds are 80 and 50, both
      inclusive. */
  function Tier(score: real): (c: Color)
    ensures c == Success <==> score >= 80.0
    ensures c == Warning <==> 50.0 <= score < 80.0
    ensures c == Error <==> score < 50.0
  {
    if score >= 80.0 then Success else if score >= 50.0 then Warning else Error
  }

  /** The order of the tiers, worst first. */
  function Rank(c: Color): nat {
    match c
    case Error => 0
    case Warning => 1
    case Success => 2
  }

  /** A higher score never lands in a lower tier. */
  lemma TierMonotone(a: real, b: real)
    requires a >= b
    ensures Rank(Tier(a)) >= Rank(Tier(b))
  {
  }

  // ---------------------------------------------------------------------------
  // Cards

  /** `labels.map(l => <Chip label={l} color={color} />)`. */
  function Chips(labels: seq<string>, color: Color): (r: seq<Chip>)
    ensures |r| == |labels|
    ensures forall i | 0 <= i < |labels| :: r[i].text == labels[i] && r[i].color == color
  {
    if labels == [] then [] else [Chip(labels[0], color)] + Chips(labels[1..], color)
  }

  /** The labels a row of chips shows, left to right. */
  function Labels(chips: seq<Chip>): (r: seq<string>)
    ensures |r| == |chips| && forall i | 0 <= i < |chips| :: r[i] == chips[i].text
  {
    seq(|chips|, i requires 0 <= i < |chips| => chips[i].text)
  }

  /** The card of one candidate: its name and ranking, its score coloured by
      tier, one green chip per strength and one red chip per weakness in the
      order given, and the suggestions section exactly when the field is
      present (an empty list still shows the heading). */
  function CandidateCard(c: Candidate): (card: Card)
    ensures card.filename == c.filename && card.ranking == c.ranking
    ensures card.recommendation == c.recommendation && card.summary == c.summary
    ensures card.score == c.suitabilityScore && card.scoreColor == Tier(c.suitabilityScore)
    ensures Labels(card.strengths) == c.strengths
    ensures forall i | 0 <= i < |card.strengths| :: card.strengths[i].color == Success
    ensures Labels(card.weaknesses) == c.weaknesses
    ensures forall i | 0 <= i < |card.weaknesses| :: card.weaknesses[i].color == Error
    ensures card.suggestions.Some? <==> c.improvementSuggestions.Some?
    ensures card.suggestions.Some? ==> card.suggestions.value == c.improvementSuggestions.value
  {
    Card(c.ranking, c.filename, c.suitabilityScore, Tier(c.suitabilityScore),
         c.recommendation, c.summary,
         Chips(c.strengths, Success), Chips(c.weaknesses, Error),
         c.improvementSuggestions)
  }

  /** `candidates.map(c => <CandidateCard candidate={c} />)`: one card per
      candidate, card k from candidate k. */
  function Cards(cs: seq<Candidate>): (r: seq<Card>)
    ensures |r| == |cs|
    ensures forall k | 0 <= k < |cs| :: r[k] == CandidateCard(cs[k])
  {
    if cs == [] then [] else [CandidateCard(cs[0])] + Cards(cs[1..])
  }

  // ---------------------------------------------------------------------------
  // The view

  /** The results view. Without a result: the notice whose one button leads
      back to the upload form, and no cards. With one: the summary panel
      exactly when `overall_summary` is a non-empty string, and one card per
      candidate in the order received. */
  function Present(res: Wrappers.Option<AnalysisResult>): (v: View)
    ensures v.NoData? <==> res.None?
    ensures v.NoData? ==> v.title == NoDataTitle && v.target == UploadPath
    ensures res.Some? ==> (v.summary.Some? <==> Wrappers.Truthy(res.value.overallSummary))
    ensures res.Some? && v.summary.Some? ==>
              v.summary.value == SummaryPanel(res.value.overallSummary.value, res.value.processedFiles, res.value.timestamp)
    ensures res.Some? ==> |v.cards| == |res.value.candidates|
    ensures res.Some? ==> forall k | 0 <= k < |v.cards| :: v.cards[k] == CandidateCard(res.value.candidates[k])
  {
    match res
    case None => NoData(NoDataTitle, NoDataMessage, BackLabel, UploadPath)
    case Some(r) =>
      var summary :=
        if Wrappers.Truthy(r.overallSummary)
        then Wrappers.Some(SummaryPanel(r.overallSummary.value, r.processedFiles, r.timestamp))
        else Wrappers.None;
      Report(ReportTitle, summary, Cards(r.candidates))
  }

  /** The view ignores `top_candidates` and the `success` flag: two results
      that differ only there look the same. */
  lemma PresentIgnoresRankingHint(r: AnalysisResult, topCandidates: seq<string>, success: bool)
    ensures Present(Wrappers.Some(r)) == Present(Wrappers.Some(r.(topCandidates := topCandidates, success := success)))
  {
  }
}
