/**
 * The provider front end of llm_utils_fixed: the provider chosen from the
 * environment, and the clean-up of a Gemini reply before it is parsed as JSON.
 * The provider SDK calls and the JSON parser are inputs.
 */
module LlmUtilsFixed {
  import opened Wrappers
  import opened Strings

  /** `s[n:]` for `n <= |s|`. */
  function Drop(s: string, n: nat): string
    requires n <= |s|
  {
    s[n..]
  }

  /**
   * The fence removal: strip, drop one leading "```json", then one leading
   * "```", then one trailing "```", and strip again.
   */
  function StripFences(response: string): string
  {
    var c1 := Strip(response);
    var c2 := if StartsWith(c1, "```json") then Drop(c1, 7) else c1;
    var c3 := if StartsWith(c2, "```") then Drop(c2, 3) else c2;
    var c4 := if EndsWith(c3, "```") then c3[..|c3| - 3] else c3;
    Strip(c4)
  }

  /** Cleaning never makes the reply longer. */
  lemma StripFencesNotLonger(response: string)
    ensures |StripFences(response)| <= |response|
  {
    var c1 := Strip(response);
    StripFacts(response);
    var c2 := if StartsWith(c1, "```json") then Drop(c1, 7) else c1;
    var c3 := if StartsWith(c2, "```") then Drop(c2, 3) else c2;
    var c4 := if EndsWith(c3, "```") then c3[..|c3| - 3] else c3;
    StripFacts(c4);
  }

  /** A reply with no fence and no surrounding whitespace is already clean. */
  lemma CleanReplyUnchanged(response: string)
    requires IsStripped(response)
    requires !StartsWith(response, "```") && !EndsWith(response, "```")
    ensures StripFences(response) == response
  {
    StripStripped(response);
  }

  /** A stripped text between two newlines strips back to itself. */
  lemma StripNewlines(x: string)
    requires IsStripped(x)
    ensures Strip("\n" + x + "\n") == x
  {
    var s := "\n" + x + "\n";
    assert s[1..] == x + "\n";
    if x == [] {
      assert LStrip(s) == LStrip("\n") == LStrip("") == "";
    } else {
      assert LStrip(s) == LStrip(x + "\n");
      LStripNoOp(x + "\n");
      assert (x + "\n")[..|x|] == x;
      RStripNoOp(x);
    }
  }

  /** A reply fenced as a JSON code block cleans to its content: "```json\n{…}\n```" gives "{…}". */
  lemma FencedJsonCleans(x: string)
    requires IsStripped(x)
    ensures StripFences("```json\n" + x + "\n```") == x
  {
    var s := "```json\n" + x + "\n```";
    assert IsStripped(s) by {
      assert s[0] == '`' && s[|s| - 1] == '`';
    }
    StripStripped(s);
    assert StartsWith(s, "```json") by { assert s[..7] == "```json"; }
    var c2 := Drop(s, 7);
    assert c2 == "\n" + x + "\n```";
    assert !StartsWith(c2, "```") by { assert c2[0] == '\n'; }
    assert EndsWith(c2, "```") by { assert c2[|c2| - 3..] == "```"; }
    assert c2[..|c2| - 3] == "\n" + x + "\n";
    StripNewlines(x);
  }

  /** What the Gemini SDK call gave: the reply text, or the error it raised. */
  datatype Reply = ReplyText(text: string) | ApiError(error: string)

  /** A provider call's result: a parsed JSON value, None, or a raised error. */
  datatype Outcome<T> = Returned(value: T) | ReturnedNone | Raised(error: string)

  /**
   * `process_email_with_gemini` after the SDK call: an empty reply gives None,
   * any other reply is cleaned and handed to the JSON parser `jsonLoads`
   * (None where it raises); errors are re-raised.
   */
  function ProcessGeminiReply<T>(reply: Reply, jsonLoads: string -> Option<T>, parseError: string): (r: Outcome<T>)
    ensures r == ReturnedNone <==> reply == ReplyText("")
    ensures reply.ApiError? ==> r == Raised(reply.error)
    ensures r.Raised? && reply.ReplyText? ==> r.error == parseError
  {
    match reply
    case ApiError(e) => Raised(e)
    case ReplyText(text) =>
      if text == "" then ReturnedNone
      else match jsonLoads(StripFences(text))
        case Some(v) => Returned(v)
        case None => Raised(parseError)
  }

  /**
   * What the cleaning is for: a JSON object the model wrapped in a code fence
   * reaches the parser without the fence, so the reply is the parsed object,
   * or the parse error when the content itself is not JSON.
   */
  lemma FencedReplyParses<T>(x: string, jsonLoads: string -> Option<T>, parseError: string)
    requires IsStripped(x)
    ensures var r := ProcessGeminiReply(ReplyText("```json\n" + x + "\n```"), jsonLoads, parseError);
      match jsonLoads(x)
      case Some(v) => r == Returned(v)
      case None => r == Raised(parseError)
  {
    FencedJsonCleans(x);
  }

  datatype Provider = Gemini | OpenAi

  /** `LLM_PROVIDER`: the environment variable, lower-cased, "gemini" when unset. */
  function ProviderName(env: Option<string>): string
  {
    Lower(env.GetOr("gemini"))
  }

  /** `process_email`'s dispatch: exactly "gemini" and "openai" are served; anything else raises ValueError. */
  function Dispatch(providerName: string): (r: Result<Provider>)
    ensures r.Ok? <==> providerName == "gemini" || providerName == "openai"
    ensures r == Ok(Gemini) <==> providerName == "gemini"
    ensures r.Err? ==> r.error == "Unknown LLM provider: " + providerName
  {
    if providerName == "gemini" then Ok(Gemini)
    else if providerName == "openai" then Ok(OpenAi)
    else Err("Unknown LLM provider: " + providerName)
  }

  /** With the variable unset the provider is Gemini; its letter case never matters. */
  lemma DefaultProviderIsGemini(env: string)
    ensures Dispatch(ProviderName(None)) == Ok(Gemini)
    ensures Dispatch(ProviderName(Some(env))) == Dispatch(ProviderName(Some(Lower(env))))
  {
    assert Lower("gemini") == "gemini";
    LowerIdempotent(env);
  }
}
