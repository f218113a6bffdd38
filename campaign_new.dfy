// The admin page that creates a campaign: the starting template, the
// required fields and the draft row it inserts.

module CampaignNew {

  import opened Strings
  import opened Campaigns

  // The starting template. Only the two lines that use the placeholder are
  // kept verbatim; the surrounding markup is given by its first and last
  // tags.
  const Doctype := "<!DOCTYPE html>"
  const TemplateStart := "<html><head>...</head><body><div class=\"container\"><div class=\"header\"><h1>EMPODHERA</h1></div><div class=\"content\">"
  const TemplateGreeting := "<h2>Olá, " + "{{nome}}" + "!</h2>"
  const TemplateRest := "<p>Escreva aqui o conteúdo do seu email...</p>"
    + "<p>Você pode usar a variável <strong>{{nome}}</strong> para personalizar a saudação.</p>"
    + "<p style=\"text-align: center;\"><a href=\"https://seusite.com\" class=\"button\">Saiba Mais</a></p></div>"
    + "<div class=\"footer\"><p>EMPODHERA</p><p>Conectando mulheres, gerando negócios</p></div></div></body></html>"

  function DefaultTemplate(): string {
    Doctype + TemplateStart + TemplateGreeting + TemplateRest
  }

  /** The template greets the reader by the placeholder, so a campaign
    * saved unchanged is personalized. */
  lemma DefaultTemplateUsesName()
    ensures Contains(DefaultTemplate(), "{{nome}}")
  {
    var t := "{{nome}}";
    ContainsInfix("<h2>Olá, ", t, "!</h2>");
    ContainsInPart(Doctype + TemplateStart, TemplateGreeting, TemplateRest, t);
  }

  /** The template passes the required-content check. */
  lemma DefaultTemplateNotBlank()
    ensures !IsBlank(DefaultTemplate())
  {
    assert Doctype[0] == '<';
    NotBlankExtends(Doctype, TemplateStart);
    NotBlankExtends(Doctype + TemplateStart, TemplateGreeting);
    NotBlankExtends(Doctype + TemplateStart + TemplateGreeting, TemplateRest);
  }

  /** The row `insert` receives: title and subject trimmed, the HTML as
    * typed, status "draft". */
  datatype DraftRow = DraftRow(title: string, subject: string, htmlContent: string, status: CampaignStatus)

  /** The required-field check and the row it leads to. */
  function DraftFor(title: string, subject: string, html: string): (r: Option<DraftRow>)
    ensures r.Some? <==> !IsBlank(title) && !IsBlank(subject) && !IsBlank(html)
    ensures r.Some? ==> r.value.title == Trim(title) && r.value.subject == Trim(subject)
    ensures r.Some? ==> r.value.htmlContent == html && r.value.status == Draft
  {
    if Trim(title) == "" || Trim(subject) == "" || Trim(html) == "" then None
    else Some(DraftRow(Trim(title), Trim(subject), html, Draft))
  }

  /** A saved draft has a non-empty title and subject with no surrounding
    * whitespace; saving it again would store the same values. */
  lemma DraftIsClean(title: string, subject: string, html: string)
    requires DraftFor(title, subject, html).Some?
    ensures var d := DraftFor(title, subject, html).value;
            d.title != "" && d.subject != "" && Trim(d.title) == d.title && Trim(d.subject) == d.subject &&
            DraftFor(d.title, d.subject, d.htmlContent) == Some(d)
  {
    TrimIdempotent(title);
    TrimIdempotent(subject);
  }

  datatype SaveOutcome =
    | MissingFields      // toast "Campos obrigatórios"
    | Saved              // toast "Campanha salva!", go to the campaign list
    | SaveFailed         // toast "Erro ao salvar"

  class NewCampaignForm {
    var title: string
    var subject: string
    var htmlContent: string
    var isSaving: bool
    var inserts: seq<DraftRow>

    constructor ()
      ensures title == "" && subject == "" && htmlContent == DefaultTemplate() && !isSaving && inserts == []
    {
      title := "";
      subject := "";
      htmlContent := DefaultTemplate();
      isSaving := false;
      inserts := [];
    }

    method HandleSave(insertOk: bool) returns (outcome: SaveOutcome)
      modifies this`isSaving, this`inserts
      ensures var d := DraftFor(title, subject, htmlContent);
              (d.None? ==> outcome == MissingFields && inserts == old(inserts)) &&
              (d.Some? ==> inserts == old(inserts) + [d.value] && outcome == (if insertOk then Saved else SaveFailed))
      ensures !isSaving
    {
      var d := DraftFor(title, subject, htmlContent);
      if d.None? {
        isSaving := false;
        return MissingFields;
      }
      isSaving := true;
      inserts := inserts + [d.value];
      outcome := if insertOk then Saved else SaveFailed;
      isSaving := false;
    }
  }
}
