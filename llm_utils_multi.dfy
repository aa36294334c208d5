/**
 * The provider front end of llm_utils_multi: Claude, OpenAI or Gemini chosen
 * from the environment, and the clean-up of a Gemini reply, which adds a
 * quote replacement to the fence removal of llm_utils_fixed.
 */
module LlmUtilsMulti {
  import opened Wrappers
  import opened Strings
  import LlmUtilsFixed

  /** Fence removal followed by `replace("'", '"')`. */
  function CleanGeminiResponse(response: string): string
  {
    ReplaceChar(LlmUtilsFixed.StripFences(response), '\'', '"')
  }

  /** The cleaned reply never holds a single quote and is never longer than the reply. */
  lemma CleanGeminiResponseFacts(response: string)
    ensures '\'' !in CleanGeminiResponse(response)
    ensures |CleanGeminiResponse(response)| <= |response|
  {
    LlmUtilsFixed.StripFencesNotLonger(response);
  }

  /** A reply with no fence, no surrounding whitespace and no single quote passes through unchanged. */
  lemma CleanReplyUnchanged(response: string)
    requires IsStripped(response)
    requires !StartsWith(response, "```") && !EndsWith(response, "```")
    requires '\'' !in response
    ensures CleanGeminiResponse(response) == response
  {
    LlmUtilsFixed.CleanReplyUnchanged(response);
  }

  /** A fenced reply written with single quotes cleans to its content with double quotes. */
  lemma FencedReplyCleans(x: string)
    requires IsStripped(x)
    ensures CleanGeminiResponse("```json\n" + x + "\n```") == ReplaceChar(x, '\'', '"')
  {
    LlmUtilsFixed.FencedJsonCleans(x);
  }

  /**
   * `process_email_with_gemini` after the SDK call: an empty reply gives None,
   * any other reply is cleaned and handed to the JSON parser; errors are re-raised.
   */
  function ProcessGeminiReply<T>(reply: LlmUtilsFixed.Reply, jsonLoads: string -> Option<T>, parseError: string)
    : (r: LlmUtilsFixed.Outcome<T>)
    ensures r == LlmUtilsFixed.ReturnedNone <==> reply == LlmUtilsFixed.ReplyText("")
    ensures reply.ApiError? ==> r == LlmUtilsFixed.Raised(reply.error)
    ensures r.Raised? && reply.ReplyText? ==> r.error == parseError
  {
    match reply
    case ApiError(e) => LlmUtilsFixed.Raised(e)
    case ReplyText(text) =>
      if text == "" then LlmUtilsFixed.ReturnedNone
      else match jsonLoads(CleanGeminiResponse(text))
        case Some(v) => LlmUtilsFixed.Returned(v)
        case None => LlmUtilsFixed.Raised(parseError)
  }

  /**
   * A fenced reply written with single quotes reaches the parser unfenced and
   * with double quotes, so Python-style quoting still parses as JSON.
   */
  lemma FencedReplyParses<T>(x: string, jsonLoads: string -> Option<T>, parseError: string)
    requires IsStripped(x)
    ensures var r := ProcessGeminiReply(LlmUtilsFixed.ReplyText("```json\n" + x + "\n```"), jsonLoads, parseError);
      match jsonLoads(ReplaceChar(x, '\'', '"'))
      case Some(v) => r == LlmUtilsFixed.Returned(v)
      case None => r == LlmUtilsFixed.Raised(parseError)
  {
    FencedReplyCleans(x);
  }

  datatype Provider = Claude | OpenAi | Gemini

  /** `LLM_PROVIDER`: the environment variable, lower-cased, "claude" when unset. */
  function ProviderName(env: Option<string>): string
  {
    Lower(env.GetOr("claude"))
  }

  /** `process_email`'s dispatch: each of the three names reaches its own provider; anything else raises ValueError. */
  function Dispatch(providerName: string): (r: Result<Provider>)
    ensures r == Ok(Claude) <==> providerName == "claude"
    ensures r == Ok(OpenAi) <==> providerName == "openai"
    ensures r == Ok(Gemini) <==> providerName == "gemini"
    ensures r.Err? ==> r.error == "Unknown LLM provider: " + providerName
  {
    if providerName == "claude" then Ok(Claude)
    else if providerName == "openai" then Ok(OpenAi)
    else if providerName == "gemini" then Ok(Gemini)
    else Err("Unknown LLM provider: " + providerName)
  }

  /** With the variable unset the provider is Claude, unlike llm_utils_fixed, whose default is Gemini. */
  lemma DefaultsDiffer()
    ensures Dispatch(ProviderName(None)) == Ok(Claude)
    ensures LlmUtilsFixed.Dispatch(LlmUtilsFixed.ProviderName(None)) == Ok(LlmUtilsFixed.Gemini)
  {
    assert Lower("claude") == "claude";
    assert Lower("gemini") == "gemini";
  }
}
