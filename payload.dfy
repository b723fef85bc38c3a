/** The analysis payload the service returns and the upload controller hands,
    unchanged, to the results view. The shape is the one the results view reads
    (resume/src/Results.tsx); the upload controller itself reads only `success`. */
module Payload {
  import opened Wrappers

  /** One evaluated resume. */
  datatype Candidate = Candidate(
    filename: string,
    ranking: int,
    suitabilityScore: real,
    recommendation: string,
    summary: string,
    strengths: seq<string>,
    weaknesses: seq<string>,
    improvementSuggestions: Option<seq<string>>)

  /** The whole response body. `topCandidates` is carried but never read by the
      results view. */
  datatype AnalysisResult = AnalysisResult(
    success: bool,
    timestamp: string,
    overallSummary: Option<string>,
    processedFiles: int,
    topCandidates: seq<string>,
    candidates: seq<Candidate>)
}
