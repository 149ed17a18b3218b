# robocloud-brain: the planner client and token gateway, in Dafny

The Cloud Brain Gateway (`app.py`) is a thin HTTP proxy for robots. Its
`/token/next` endpoint works in three steps:

- it asks a chat-completion model (Groq, `llama-3.3-70b-versatile`) for the robot's next action, given a scene and an intent;
- it cleans the code fences off the reply;
- it returns the cleaned text as a token, with an HMAC-SHA256 signature of that text in base64.

This project models the part of the gateway that has logic of its own:

- `pystr.dfy`, module `PyStr`, holds the Python `str` operations the clean-up relies on:
  - `isspace`, by its exact code-point set;
  - `lstrip`, `rstrip` and `strip`, where `strip` is `lstrip` followed by `rstrip`, and the dropped characters are a predicate;
  - `startswith`;
  - the substring test `in`;
  - `replace(old, new)`: one left-to-right pass over non-overlapping occurrences, which does not re-scan its own output.

  `Strip` is proved against an independent reference definition (`IsTrimming`): a string has exactly one trimming, and `Strip` returns it.
- `fences.dfy`, module `Fences`, holds `NormalizeFences`, the clean-up at the end of `call_llm`:
  - strip whitespace;
  - only if the text then starts with three backticks: strip every leading and trailing backtick, delete every `"json"` anywhere in the text, and strip whitespace again.

  The lemmas cover: pass-through of unfenced text; no edge whitespace on either branch; the result is never longer than the input and only deletes characters; long fences come off whole; the tagged-fence reply `"```json\n{\"a\":1}\n```"` gives `{"a":1}`; `"json"` inside the payload is deleted too; the clean-up is not idempotent.
- `planner.dfy`, module `Planner`, holds `call_llm` as a `Result`-valued function:
  - the API-key check, made before any request exists (a missing key and an empty key both fail);
  - the request that is built;
  - Python's `"choices" in result` on whatever JSON value comes back, so that a dict, a list and a str each behave as in Python;
  - the subscript path `choices[0].message.content`;
  - the normalisation.

  The HTTP exchange is a function parameter `transport`. It maps the request to the decoded response, or to `None` when the body is not JSON.
- `gateway.dfy`, module `Gateway`, holds `next_token`. The token is the planner's normalised text, and the signature is `sign(secret, token)`. The signer `sign` is a function parameter that stands for `sign_token`: HMAC-SHA256 (RFC 2104) with base64 encoding (section 4 of RFC 4648). Since it is a function, a given secret and token always produce the same signature.

The clean-up does more than remove a fence:

- it always strips surrounding whitespace, fence or no fence;
- it deletes every `"json"` in a fenced reply, including inside the payload;
- it removes every backtick at either end, not just three.

The signed payload is the normalised text, which is also the token.

## Model

| member | source | states |
|---|---|---|
| PyStr.LStrip | app.py:102 | the result is a suffix of the input, everything cut off is a dropped character, and the result does not start with one |
| PyStr.RStrip | app.py:102 | the result is a prefix of the input, everything cut off is a dropped character, and the result does not end with one |
| PyStr.Strip | app.py:102-105 | `strip` leaves no dropped character at either end and never lengthens the text; `strip()` drops `IsSpace` (Python's `isspace` code points) and `strip("`")` drops `IsBacktick` |
| PyStr.StripTrims | app.py:102 | `strip` meets the reference definition: its result is a trimming of the input |
| PyStr.KeptSurvives | app.py:102 | a character that is not dropped lies inside every trimming |
| PyStr.TrimmingUnique | app.py:102 | a string has exactly one trimming |
| PyStr.StripIs | app.py:102-105 | any exhibited trimming is what `strip` returns |
| PyStr.StripNoOp | app.py:102 | text with nothing at its ends to drop is unchanged by `strip` |
| PyStr.StripIdempotent | app.py:102 | stripping twice is stripping once |
| PyStr.StripMultiset | app.py:102-105 | `strip` only removes characters |
| PyStr.AbsentHeadNotContained | app.py:105 | a pattern whose first character is absent from the text does not occur in it (`Contains` is the substring test `in`) |
| PyStr.ReplaceAll | app.py:105 | `replace` with a replacement no longer than the pattern never lengthens the text |
| PyStr.ReplaceAbsent | app.py:105 | where the pattern does not occur, `replace` returns the text unchanged |
| PyStr.ReplaceSkipsPrefix | app.py:105 | a prefix that cannot begin the pattern is copied, and the scan continues after it |
| PyStr.ReplaceMultiset | app.py:105 | replacing by the empty string only removes characters |
| PyStr.ReplaceIsSinglePass | app.py:105 | one pass does not re-scan what it joined: "jsjsonon" with "json" deleted is "json", which still contains "json" |
| Fences.NormalizeFences | app.py:101-107 | the output has no whitespace at either end on either branch, and is never longer than the input; the branch test is `StartsWith`, Python's `startswith` |
| Fences.NormalizeOnlyDeletes | app.py:102-105 | the output holds no character more often than the input |
| Fences.UnfencedIsStripped | app.py:102-107 | when the stripped content does not start with three backticks, the output is exactly the stripped content |
| Fences.UnfencedPassThrough | app.py:102-107 | content with no edge whitespace and no fence passes through unchanged |
| Fences.FencedBranch | app.py:103-105 | stripped content that starts with three backticks loses its backticks, then every "json", then its whitespace |
| Fences.FencedBody | app.py:103-105 | a body between backtick runs of any lengths (at least three in front) comes out with every "json" deleted and whitespace stripped |
| Fences.ThreeBacktickFence | app.py:103-105 | the same for a three-backtick fence on both sides |
| Fences.FencedPayload | app.py:103-105 | a fenced body without "json" and without edge whitespace comes out exactly |
| Fences.LongFencesStripped | app.py:103-104 | all the backticks go, not just three: "`````x`````" gives "x" |
| Fences.FramedNotContained | app.py:105 | a pattern absent from a text stays absent once the text is framed by characters that cannot start or end the pattern |
| Fences.TaggedFencePayload | app.py:101-105 | a reply in a json-tagged fence on its own lines, whose payload contains no "json", comes out as the payload |
| Fences.TaggedFenceExample | app.py:101-105 | "```json\n{\"a\":1}\n```" normalises to {"a":1} |
| Fences.PayloadTagDeleted | app.py:105 | a "json" inside the fenced payload is deleted as well |
| Fences.PayloadTagExample | app.py:105 | a fenced {"json":1} becomes {"":1} |
| Fences.ShortFenceStripped | app.py:103-105 | "```x```" gives "x" |
| Fences.TagsAroundDeleted | app.py:105 | "json" tags on both sides of a text without "j" are both deleted in one pass |
| Fences.DoubleFenceOnePass | app.py:103-105 | a json-tagged inner fence inside an outer fence keeps the inner fence after one pass |
| Fences.NotIdempotent | app.py:101-107 | the normalisation is not idempotent: a second pass removes the fence the first one left |
| Fences.NotIdempotentExample | app.py:101-107 | "```json```x```json```" gives "```x```", and that gives "x" |
| Planner.RequestDeterminesKeyAndPrompt | app.py:72-89 | the request (`BuildRequest`: the chat-completions URL, the fixed model, the JSON content type, "Bearer " and the key, the fixed system instruction and the prompt as the user message) is different for different keys or prompts |
| Planner.InDictMeansSubscript | app.py:96-99 | on a dict, `"choices" in result` (`PyIn`, which is also membership on a list, the substring test on a str and a TypeError otherwise) is true exactly when `result["choices"]` (`Field`) succeeds |
| Planner.ContentOf | app.py:99 | when the path `choices[0].message.content` succeeds, the document holds that str there (`ContentAt`), and when it fails, the document holds no str there |
| Planner.ContentOfIsPath | app.py:99 | the chain of subscripts (`Field` for a str key, `Index0` for `[0]` on a list or str) yields a text exactly when the document holds that str at `choices[0].message.content` |
| Planner.ExtractContent | app.py:94-107 | the decode error happens exactly when the body is not JSON; the "choices" error happens exactly when `in` answers false, and carries the response; the malformed error (a type, key, index or attribute error) happens exactly when `in` does not answer false and the content path fails; success happens exactly when the content path yields a str, and the value is that str normalised, with no edge whitespace and no longer than it |
| Planner.ObjectWithoutChoices | app.py:96-97 | a dict without "choices" fails with the "choices" error carrying the dict |
| Planner.ErrorDocumentCarried | app.py:96-97 | the provider's {"error": e} document is reported with the document |
| Planner.ListWithChoicesMalformed | app.py:96-99 | a list holding "choices" passes the `in` test, then fails on the subscript |
| Planner.ChoiceReply | app.py:99 | a sample chat-completion document, used by the lemmas below; it is a dict with "choices" |
| Planner.ChoiceReplyExtracts | app.py:99-107 | from a chat-completion document, the call returns the normalised first-choice content |
| Planner.CallLlm | app.py:67-107 | a request is sent exactly when the key is set and non-empty (`HasKey`, Python's truthiness of the key); the missing-key error happens exactly when it is not; otherwise the result is the extraction of the provider's answer to the built request |
| Planner.MissingKeyIgnoresTransport | app.py:69-70 | without a key the outcome does not depend on the provider |
| Planner.EmptyKeyIsMissing | app.py:69-70 | an empty key sends nothing and fails with the missing-key error |
| Gateway.NextToken | app.py:113-143 | a missing key fails; the reply succeeds exactly when `call_llm` does, with the token equal to its text, and otherwise carries its error; the signature verifies as `sign(secret, token)`; the token has no edge whitespace |
| Gateway.PlannerTextIsToken | app.py:99-143 | for a chat-completion answer, the token is the normalised first-choice text, signed under the configured secret |
| Gateway.MoveArcExample | app.py:136-143 | the unfenced move_arc command text is returned as the token, unchanged, with its signature |
| Gateway.RobotIdIgnored | app.py:122-143 | the robot id plays no part in the reply |
| Gateway.MissingKeyNothingSent | app.py:69-70 | without a key no request is sent, and the reply does not depend on the provider |
| Gateway.SameTokenSameSignature | app.py:113-119 | two replies that verify under the same secret and carry the same token are identical |

## Left out

- The HTTP exchange with Groq (`requests.post`, `response.json()`) is the parameter `transport`. Connection errors and timeouts raised by `requests` are not modelled. Neither is the HTTP status code, which the code prints but never checks.
- `ingest_frame` (app.py:45-61) is left out. It forwards an image to RunPod and returns the provider's JSON unchanged; there is no logic to model.
- The internals of HMAC-SHA256 and base64 (app.py:114-119) are left out, because they are library calls. `sign` is an uninterpreted function parameter, so the model proves determinism but not that the signature is hard to forge.
- FastAPI routing, the CORS middleware, pydantic validation and the environment loading (app.py:2-27, 33-39) are left out as framework and configuration plumbing. The configuration is the value `Config`. The secret's insecure default "supersecret" and the unused `VISION_URL` are not modelled.
- The prompt f-string (app.py:124-134) is the parameter `render(scene, intent)`. Its text depends on Python's `repr` of a dict.
- The `print` diagnostics (app.py:91-92) and the unused `ASRInput` model are left out.
- Planner.LlmError: Python raises `TypeError`, `KeyError`, `IndexError` or `AttributeError` on a malformed document, and all of them are the single error `Malformed`, which, like those exceptions, does not carry the document; the message text of each exception is not modelled.
- Planner.Json: numbers are `real`, so Python's int/float distinction, NaN and Infinity are not modelled. An object holds one value per key, as Python's decoder keeps the last duplicate.
- PyStr.ReplaceAll: `replace` with an empty pattern is not modelled (it requires a non-empty pattern); the code only replaces "json".
- PyStr: a Dafny `char` is a Unicode scalar value, so the lone surrogates a Python `str` can hold are not modelled.
