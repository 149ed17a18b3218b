/**
 * The `/token/next` endpoint of app.py: the planner's text becomes the token,
 * and the token is signed with the configured secret.
 *
 * The signer `sign(secret, payload)` stands for `sign_token`, which computes
 * the HMAC-SHA256 of the payload under the secret (RFC 2104) and encodes the
 * digest in base64 (section 4 of RFC 4648). The prompt template is the
 * parameter `render(scene, intent)`.
 */
module Gateway {
  import opened PyStr
  import opened Fences
  import opened Planner

  /** The environment the gateway reads at start-up. */
  datatype Config = Config(groqApiKey: Option<string>, tokenSecret: string)

  /** The body of a `/token/next` request. */
  datatype TokenRequest = TokenRequest(robotId: string, scene: Json, intent: string)

  /** The body of the reply. */
  datatype SignedToken = SignedToken(token: string, signature: string)

  /** A token verifies under `secret` when its signature is the signer's
      output for that secret and that token. */
  predicate Verifies(t: SignedToken, secret: string, sign: (string, string) -> string) {
    t.signature == sign(secret, t.token)
  }

  /** `next_token`: ask the planner, then sign its text. */
  function NextToken(config: Config, req: TokenRequest,
                     render: (Json, string) -> string,
                     transport: ChatRequest -> Option<Json>,
                     sign: (string, string) -> string): (r: Result<SignedToken, LlmError>)
    ensures !HasKey(config.groqApiKey) ==> r == Failure(MissingApiKey)
    ensures var x := CallLlm(config.groqApiKey, render(req.scene, req.intent), transport);
      && (r.Success? <==> x.result.Success?)
      && (r.Success? ==> r.value.token == x.result.value)
      && (r.Failure? ==> r.error == x.result.error)
    ensures r.Success? ==> Verifies(r.value, config.tokenSecret, sign)
    ensures r.Success? ==> NoEdge(r.value.token, IsSpace)
  {
    var prompt := render(req.scene, req.intent);
    match CallLlm(config.groqApiKey, prompt, transport).result
    case Failure(e) => Failure(e)
    case Success(text) => Success(SignedToken(text, sign(config.tokenSecret, text)))
  }

  /** When the provider answers with a chat completion, the token is the
      normalised text of its first choice. */
  lemma PlannerTextIsToken(config: Config, req: TokenRequest,
                           render: (Json, string) -> string,
                           transport: ChatRequest -> Option<Json>,
                           sign: (string, string) -> string,
                           text: string, others: map<string, Json>)
    requires HasKey(config.groqApiKey)
    requires transport(BuildRequest(config.groqApiKey.value, render(req.scene, req.intent)))
          == Some(ChoiceReply(text, others))
    ensures NextToken(config, req, render, transport, sign)
         == Success(SignedToken(NormalizeFences(text), sign(config.tokenSecret, NormalizeFences(text))))
  {
    ChoiceReplyExtracts(text, others);
  }

  /** A plain move_arc command, with no fence, is signed as it stands. */
  lemma MoveArcExample(config: Config, req: TokenRequest,
                       render: (Json, string) -> string,
                       transport: ChatRequest -> Option<Json>,
                       sign: (string, string) -> string,
                       text: string)
    requires text == "{" + "\"cmd\":\"move_arc\",\"v\":1.0,\"r\":0.5,\"duration_ms\":200" + "}"
    requires HasKey(config.groqApiKey)
    requires transport(BuildRequest(config.groqApiKey.value, render(req.scene, req.intent)))
          == Some(ChoiceReply(text, map[]))
    ensures NextToken(config, req, render, transport, sign)
         == Success(SignedToken(text, sign(config.tokenSecret, text)))
  {
    assert text[0] == '{' && text[|text| - 1] == '}';
    assert !StartsWith(text, Fence) by { assert text[..3][0] != Fence[0]; }
    UnfencedPassThrough(text);
    PlannerTextIsToken(config, req, render, transport, sign, text, map[]);
  }

  /** The robot id plays no part in the reply. */
  lemma RobotIdIgnored(config: Config, req: TokenRequest, robotId: string,
                       render: (Json, string) -> string,
                       transport: ChatRequest -> Option<Json>,
                       sign: (string, string) -> string)
    ensures NextToken(config, req.(robotId := robotId), render, transport, sign)
         == NextToken(config, req, render, transport, sign)
  {
  }

  /** Without a key no request is made, so the reply does not depend on the
      provider. */
  lemma MissingKeyNothingSent(config: Config, req: TokenRequest,
                              render: (Json, string) -> string,
                              t1: ChatRequest -> Option<Json>, t2: ChatRequest -> Option<Json>,
                              sign: (string, string) -> string)
    requires !HasKey(config.groqApiKey)
    ensures CallLlm(config.groqApiKey, render(req.scene, req.intent), t1).sent.None?
    ensures NextToken(config, req, render, t1, sign) == NextToken(config, req, render, t2, sign)
  {
  }

  /** The signer is a function: two replies that verify under the same
      secret and carry the same token are the same reply. */
  lemma SameTokenSameSignature(config: Config, sign: (string, string) -> string,
                               a: SignedToken, b: SignedToken)
    requires Verifies(a, config.tokenSecret, sign) && Verifies(b, config.tokenSecret, sign)
    requires a.token == b.token
    ensures a == b
  {
  }
}
