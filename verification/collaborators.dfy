/** The two remote services a refresh calls before touching the datastore.
    Both are opaque: the scraping bot (services/protalkService.ts) and the
    language model (services/geminiService.ts) are represented only by the
    outcome they deliver. */
module Collaborators {
  import opened Wrappers
  import opened Types

  const ParseFailedMessage := "Failed to parse water data from text."

  /** The scraped page text, or the error the transport raised with its message. */
  function FetchRawText(outcome: Result<string, string>): (r: Result<string, Fault>)
    ensures r.Success? <==> outcome.Success?
    ensures r.Success? ==> r.value == outcome.value
    ensures r.Failure? ==> r.error.Raised? && r.error.Message() == outcome.error
  {
    match outcome
    case Success(text) => Success(text)
    case Failure(message) => Failure(Raised(message))
  }

  /** The two numbers the language model reads from the text. Whatever goes
      wrong inside (the request, an empty reply, malformed JSON) surfaces as
      one fixed message. */
  function ParseWaterData(oracle: Option<ExtractedWaterData>): (r: Result<ExtractedWaterData, Fault>)
    ensures r.Success? <==> oracle.Some?
    ensures r.Success? ==> r.value == oracle.value
    ensures r.Failure? ==> r.error == Raised(ParseFailedMessage)
  {
    match oracle
    case Some(x) => Success(x)
    case None => Failure(Raised(ParseFailedMessage))
  }
}
