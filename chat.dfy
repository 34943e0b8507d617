/**
  One turn of the portfolio's chat assistant: the typed message is trimmed, an empty one is
  ignored, and the answer comes from the language-model service when an API key is configured
  and the call succeeds, and from the local responder otherwise. Both bubbles are shown
  through the message formatter.
 */
module Chat {
  import opened Wrappers
  import opened Text
  import opened Facts
  import opened Responder
  import opened Format
  import opened FormatProperties

  /** The placeholder left in the configuration when no real key was filled in. */
  const PlaceholderKey: string := "your-openai-api-key"

  /** Whether `getAIResponse` tries the service: the key is present, non-empty (JavaScript's
      truthiness of a string) and not the placeholder. */
  predicate UsesNetwork(apiKey: Option<string>) {
    apiKey.Some? && apiKey.value != "" && apiKey.value != PlaceholderKey
  }

  datatype Source = Network | Local

  datatype Answer = Answer(text: string, source: Source)

  /** `getAIResponse`. The service's outcome is a parameter: `Some(text)` when the request
      returned a completion, `None` when it threw. The local responder answers from the fact
      base `f` in the wording `w`. */
  function GetAIResponse(apiKey: Option<string>, remote: Option<string>, message: string, f: FactBase, w: Wording): (a: Answer)
    ensures a.source == Network <==> UsesNetwork(apiKey) && remote.Some?
    ensures a.source == Network ==> a.text == remote.value
    ensures a.source == Local ==> a.text == Respond(message, f, w)
  {
    if UsesNetwork(apiKey) && remote.Some? then Answer(remote.value, Network)
    else Answer(Respond(message, f, w), Local)
  }

  /** What one send shows: the user's message and the assistant's reply, each formatted. */
  datatype Exchange = Exchange(question: string, reply: Answer, questionHtml: string, replyHtml: string)

  /** `sendMessage`: `None` when the input trims to nothing, and nothing is sent. */
  function SendMessage(input: string, apiKey: Option<string>, remote: Option<string>, f: FactBase, w: Wording): (r: Option<Exchange>)
    ensures r.None? <==> AllWhitespace(input)
    ensures r.Some? ==> r.value.question == Trim(input) && r.value.question != [] && Trimmed(r.value.question)
    ensures r.Some? ==> r.value.reply == GetAIResponse(apiKey, remote, r.value.question, f, w)
    ensures r.Some? ==> r.value.questionHtml == FormatMessage(r.value.question)
    ensures r.Some? ==> r.value.replyHtml == FormatMessage(r.value.reply.text)
    ensures r.Some? ==> '\n' !in r.value.questionHtml && '\n' !in r.value.replyHtml
  {
    var message := Trim(input);
    if message == [] then None
    else
      var reply := GetAIResponse(apiKey, remote, message, f, w);
      FormattedIsOneLine(message);
      FormattedIsOneLine(reply.text);
      Some(Exchange(message, reply, FormatMessage(message), FormatMessage(reply.text)))
  }
}

module ChatProperties {
  import opened Wrappers
  import opened Text
  import opened Facts
  import opened Responder
  import opened ResponderProperties
  import opened Chat

  /** Without a usable key the service's outcome does not matter: the local responder answers. */
  lemma NoKeyAnswersLocally(apiKey: Option<string>, remote: Option<string>, message: string, f: FactBase, w: Wording)
    requires !UsesNetwork(apiKey)
    ensures GetAIResponse(apiKey, remote, message, f, w) == Answer(Respond(message, f, w), Local)
  {
  }

  /** A missing key, an empty key and the placeholder key are all unusable. */
  lemma UnusableKeys()
    ensures !UsesNetwork(None)
    ensures !UsesNetwork(Some(""))
    ensures !UsesNetwork(Some(PlaceholderKey))
  {
  }

  /** A failed request falls back to the local responder whatever the key. */
  lemma FailureFallsBack(apiKey: Option<string>, message: string, f: FactBase, w: Wording)
    ensures GetAIResponse(apiKey, None, message, f, w) == Answer(Respond(message, f, w), Local)
  {
  }

  /** The assistant always says something when it answers locally in a wording that does. */
  lemma LocalAnswerIsNonEmpty(apiKey: Option<string>, remote: Option<string>, message: string, f: FactBase, w: Wording)
    requires Spoken(w)
    ensures GetAIResponse(apiKey, remote, message, f, w).source == Local ==>
      |GetAIResponse(apiKey, remote, message, f, w).text| > 0
  {
    AnswerIsNonEmpty(message, f, w);
  }

  /** In the agent's own wording a local answer is never empty, whatever the fact base. */
  lemma PageLocalAnswerIsNonEmpty(apiKey: Option<string>, remote: Option<string>, message: string, f: FactBase)
    ensures GetAIResponse(apiKey, remote, message, f, SourceWording).source == Local ==>
      |GetAIResponse(apiKey, remote, message, f, SourceWording).text| > 0
  {
    PageAnswerIsNonEmpty(message, f);
  }

  /** Sending an already-trimmed message behaves exactly as sending the padded original: the
      surrounding whitespace never reaches the responder. */
  lemma SendIgnoresPadding(input: string, apiKey: Option<string>, remote: Option<string>, f: FactBase, w: Wording)
    ensures SendMessage(Trim(input), apiKey, remote, f, w) == SendMessage(input, apiKey, remote, f, w)
  {
  }
}
