// The `generate-email-html` edge function: check the configuration and the
// text, assemble the prompt for the AI gateway, map the gateway's status,
// and clean the returned markup of Markdown code fences.

module EmailHtml {

  import opened Strings
  import opened Http

  const MissingKey := "LOVABLE_API_KEY is not configured"
  const MissingBody := "O corpo do email é obrigatório"
  const RateLimited := "Limite de requisições excedido. Tente novamente em alguns instantes."
  const NoCredits := "Créditos insuficientes. Adicione créditos à sua conta."
  const NoCta := "SEM BOTÃO CTA"

  /** A body that is not JSON makes `req.json()` throw with the parser's
    * message; the body is read before the key is looked at. */
  datatype Request =
    | Options
    | Unparsable(message: string)
    | Post(bodyText: Option<string>, ctaText: Option<string>, ctaLink: Option<string>)

  /** The gateway's answer: its status and, when it is ok, the first
    * choice's message content (absent or empty when the JSON lacks it). */
  datatype GatewayAnswer = Answered(status: nat, content: Option<string>) | GatewayThrew(message: Option<string>)

  datatype Body = Html(html: string) | Failure(error: string)

  // ---------------------------------------------------------------------
  // The prompt

  const PromptHead := "Converta este conteúdo em um email HTML premium EMPODHERA:\n\nCORPO DO EMAIL:\n"
  const PromptTail := "\n\nRetorne APENAS o código HTML completo."

  function CtaBlock(text: string, link: string): string {
    "BOTÃO CTA:\nTexto: " + text + "\nLink: " + link
  }

  /** The user prompt: the text, then the button block when both the label
    * and the link are given, or the no-button marker. */
  function UserPrompt(bodyText: string, ctaText: Option<string>, ctaLink: Option<string>): string {
    var cta := if Truthy(ctaText) && Truthy(ctaLink) then CtaBlock(ctaText.value, ctaLink.value) else NoCta;
    PromptHead + bodyText + "\n\n" + cta + PromptTail
  }

  lemma {:induction false} PartsContained(head: string, body: string, sep: string, cta: string, tail: string)
    ensures Contains(head + body + sep + cta + tail, body)
    ensures Contains(head + body + sep + cta + tail, cta)
  {
    assert head + body + sep + cta + tail == head + body + (sep + cta + tail);
    ContainsInfix(head, body, sep + cta + tail);
    ContainsInfix(head + body + sep, cta, tail);
  }

  /** The prompt carries the text, and the button block exactly when both
    * the label and the link are given (the no-button marker otherwise). */
  lemma PromptHolds(bodyText: string, ctaText: Option<string>, ctaLink: Option<string>)
    ensures var p := UserPrompt(bodyText, ctaText, ctaLink);
            Contains(p, bodyText) &&
            (Truthy(ctaText) && Truthy(ctaLink) ==> Contains(p, CtaBlock(ctaText.value, ctaLink.value))) &&
            (!(Truthy(ctaText) && Truthy(ctaLink)) ==> Contains(p, NoCta))
  {
    var cta := if Truthy(ctaText) && Truthy(ctaLink) then CtaBlock(ctaText.value, ctaLink.value) else NoCta;
    PartsContained(PromptHead, bodyText, "\n\n", cta, PromptTail);
  }

  // ---------------------------------------------------------------------
  // Cleaning the answer

  const Ticks := "```"

  /** At the start of `s`: three backticks, then "html" in any letter case. */
  predicate HtmlFenceAt(s: string) {
    |s| >= 7 && s[..3] == Ticks && ToLower(s[3..7]) == "html"
  }

  /** How much a fence at the start of `s` takes: the fence and one newline
    * right after it, when there is one. */
  function FenceLength(s: string, n: nat): (r: nat)
    requires n <= |s|
    ensures n <= r <= |s|
  {
    if n < |s| && s[n] == '\n' then n + 1 else n
  }

  /** `replace(/```html\n?/gi, "")`. */
  function StripHtmlFences(s: string): string
    decreases |s|
  {
    if s == [] then []
    else if HtmlFenceAt(s) then StripHtmlFences(s[FenceLength(s, 7)..])
    else [s[0]] + StripHtmlFences(s[1..])
  }

  /** `replace(/```\n?/gi, "")`. */
  function StripFences(s: string): string
    decreases |s|
  {
    if s == [] then []
    else if StartsWith(s, Ticks) then StripFences(s[FenceLength(s, 3)..])
    else [s[0]] + StripFences(s[1..])
  }

  /** The markup returned: the content or "", both fence kinds removed, then
    * trimmed. */
  function Cleaned(content: Option<string>): string {
    Trim(StripFences(StripHtmlFences(OrEmpty(content))))
  }

  /** No three backticks survive the second pass: removed fences leave no
    * backtick right before the place they were taken from. */
  lemma {:induction false} StripFencesClean(s: string)
    ensures !Contains(StripFences(s), Ticks)
    ensures s != [] && s[0] != '`' ==> StripFences(s) != [] && StripFences(s)[0] == s[0]
    decreases |s|
  {
    if s != [] && !StartsWith(s, Ticks) {
      var rest := StripFences(s[1..]);
      StripFencesClean(s[1..]);
      assert StripFences(s) == [s[0]] + rest;
      assert ([s[0]] + rest)[1..] == rest;
      if s[0] == '`' && |s| >= 2 {
        if s[1] == '`' {
          if |s| >= 3 {
            assert s[2] != '`' by {
              assert s[..3] != Ticks;
              assert s[..3] == [s[0], s[1], s[2]];
            }
            assert !StartsWith(s[1..], Ticks) by {
              assert s[1..][1] == s[2];
            }
            StripFencesClean(s[2..]);
            assert s[1..][1..] == s[2..];
            assert rest == [s[1]] + StripFences(s[2..]);
            assert rest[1] == s[2];
          } else {
            assert s[1..] == [s[1]];
            assert rest == [s[1]] + StripFences([]);
          }
        }
        assert !StartsWith([s[0]] + rest, Ticks);
      }
    } else if s != [] {
      StripFencesClean(s[FenceLength(s, 3)..]);
    }
  }

  /** The cleaned markup holds no code fence. */
  lemma CleanedHasNoFence(content: Option<string>)
    ensures !Contains(Cleaned(content), Ticks)
  {
    var s := StripFences(StripHtmlFences(OrEmpty(content)));
    StripFencesClean(StripHtmlFences(OrEmpty(content)));
    TrimKeepsAbsence(s, Ticks);
  }

  /** A pass removes nothing from a text without a backtick. */
  lemma {:induction false} NoBacktickUnchanged(s: string)
    requires '`' !in s
    ensures StripHtmlFences(s) == s && StripFences(s) == s
    decreases |s|
  {
    if s != [] {
      assert s[0] != '`';
      assert !HtmlFenceAt(s) && !StartsWith(s, Ticks);
      NoBacktickUnchanged(s[1..]);
      assert [s[0]] + s[1..] == s;
    }
  }

  /** A text without backticks is only trimmed. */
  lemma PlainContentTrimmed(content: string)
    requires '`' !in content
    ensures Cleaned(Some(content)) == Trim(content)
  {
    NoBacktickUnchanged(content);
  }

  // ---------------------------------------------------------------------
  // The handler

  /** The request handler; `apiKey` is the configured key. The gateway is
    * asked once, with the user prompt, after both checks pass. */
  function Handle(req: Request, apiKey: Option<string>, answer: GatewayAnswer): (out: (seq<string>, Reply<Body>))
    ensures req.Unparsable? ==> out == ([], Reply(500, Failure(req.message)))
    ensures req.Post? && !Truthy(apiKey) ==> out == ([], Reply(500, Failure(MissingKey)))
    ensures req.Post? && Truthy(apiKey) && (!Truthy(req.bodyText) || IsBlank(req.bodyText.value)) ==>
              out == ([], Reply(500, Failure(MissingBody)))
    ensures req.Post? && Truthy(apiKey) && Truthy(req.bodyText) && !IsBlank(req.bodyText.value) ==>
              out.0 == [UserPrompt(req.bodyText.value, req.ctaText, req.ctaLink)] && out.1 == Outcome(answer)
    ensures req.Options? ==> out == ([], Preflight)
  {
    match req
    case Options => ([], Preflight)
    case Unparsable(message) => ([], Reply(500, Failure(message)))
    case Post(bodyText, ctaText, ctaLink) =>
      if !Truthy(apiKey) then ([], Reply(500, Failure(MissingKey)))
      else if !Truthy(bodyText) || Trim(bodyText.value) == [] then ([], Reply(500, Failure(MissingBody)))
      else ([UserPrompt(bodyText.value, ctaText, ctaLink)], Outcome(answer))
  }

  /** The answer once the gateway was asked. */
  function Outcome(answer: GatewayAnswer): (r: Reply<Body>)
    ensures answer.Answered? && 200 <= answer.status <= 299 ==> r == Reply(200, Html(Cleaned(answer.content)))
    ensures answer.Answered? && answer.status == 429 ==> r == Reply(429, Failure(RateLimited))
    ensures answer.Answered? && answer.status == 402 ==> r == Reply(402, Failure(NoCredits))
    ensures answer.Answered? && !(200 <= answer.status <= 299) && answer.status != 429 && answer.status != 402 ==>
              r == Reply(500, Failure("AI Gateway error: " + NatToString(answer.status)))
    ensures answer.GatewayThrew? ==>
              r == Reply(500, Failure(if answer.message.Some? then answer.message.value else "Erro ao gerar HTML"))
  {
    match answer
    case GatewayThrew(message) => Reply(500, Failure(if message.Some? then message.value else "Erro ao gerar HTML"))
    case Answered(status, content) =>
      if 200 <= status <= 299 then Reply(200, Html(Cleaned(content)))
      else if status == 429 then Reply(429, Failure(RateLimited))
      else if status == 402 then Reply(402, Failure(NoCredits))
      else Reply(500, Failure("AI Gateway error: " + NatToString(status)))
  }

  /** Every answer is one of the four statuses, 200 exactly for an ok
    * gateway status, and a successful answer holds fence-free markup. */
  lemma StatusMapping(answer: GatewayAnswer)
    ensures var r := Outcome(answer);
            r.Reply? && (r.status == 200 || r.status == 429 || r.status == 402 || r.status == 500) &&
            (r.status == 200 <==> answer.Answered? && 200 <= answer.status <= 299) &&
            (r.status == 200 ==> r.body.Html? && !Contains(r.body.html, Ticks))
  {
    var r := Outcome(answer);
    if answer.Answered? && 200 <= answer.status <= 299 {
      assert r == Reply(200, Html(Cleaned(answer.content)));
      CleanedHasNoFence(answer.content);
    } else {
      assert r.status != 200;
    }
  }
}
