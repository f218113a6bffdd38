// The activity workbook's content: four modules, each a list of sections of
// activities. Only what the application's logic reads is kept: the ids, the
// kind of each activity, a slider's title and range, a table's columns, the
// checkbox options, the module titles and quotes. Descriptions and
// placeholders are display text and are not part of this model.

module WorkbookData {

  import opened Strings

  datatype Kind = Textarea | Slider | Table | Checkbox | Text

  datatype Activity = Activity(
    id: string,
    kind: Kind,
    title: Option<string>,
    columns: Option<seq<string>>,
    options: Option<seq<string>>,
    min: Option<int>,
    max: Option<int>)

  datatype Section = Section(title: string, activities: seq<Activity>)

  datatype Quote = Quote(text: string, author: string)

  datatype ModuleData = ModuleData(id: int, title: string, subtitle: string, quote: Option<Quote>, sections: seq<Section>)

  function TextareaOf(id: string, title: Option<string>): Activity {
    Activity(id, Textarea, title, None, None, None, None)
  }

  function SliderOf(id: string, title: string): Activity {
    Activity(id, Slider, Some(title), None, None, Some(1), Some(10))
  }

  function TableOf(id: string, columns: seq<string>): Activity {
    Activity(id, Table, None, Some(columns), None, None, None)
  }

  function CheckboxOf(id: string, options: seq<string>): Activity {
    Activity(id, Checkbox, None, None, Some(options), None, None)
  }

  const ModuleOne := ModuleData(1, "O Ponto de Partida", "Compreendendo onde você está agora",
    Some(Quote("A jornada de mil milhas começa com um único passo.", "Lao Tsé")),
    [ Section("Declaração de Intenção", [TextareaOf("intencao", None)]),
      Section("Avaliação do Momento Atual",
              [ SliderOf("satisfacao_carreira", "Satisfação com a carreira"),
                SliderOf("clareza_proposito", "Clareza de propósito"),
                SliderOf("networking", "Qualidade do networking"),
                SliderOf("posicionamento", "Posicionamento de marca pessoal"),
                SliderOf("confianca", "Confiança profissional") ]),
      Section("Principais Desafios", [TextareaOf("desafios", None)]),
      Section("Seu Porquê", [TextareaOf("porque", None)]),
      Section("Visão de Futuro",
              [TextareaOf("visao_1ano", None), TextareaOf("visao_3anos", Some("E daqui a 3 anos?"))]) ])

  const ModuleTwo := ModuleData(2, "Posicionamento", "Descobrindo e comunicando seu valor único",
    Some(Quote("Não tenha medo de brilhar. Você não nasceu para ser pequena.", "Marianne Williamson")),
    [ Section("Seus Talentos Naturais", [TextareaOf("talentos", None)]),
      Section("Habilidades-Chave", [TextareaOf("habilidades", None)]),
      Section("Seu Talento Único", [TextareaOf("talento_unico", None)]),
      Section("Bloqueios e Crenças Limitantes",
              [TableOf("bloqueios", ["Crença Limitante", "Nova Afirmação Fortalecedora"])]),
      Section("Declaração de Posicionamento", [TextareaOf("posicionamento", None)]) ])

  const ModuleThree := ModuleData(3, "Branding Pessoal", "Construindo sua marca com autenticidade",
    Some(Quote("Sua marca pessoal é o que as pessoas dizem sobre você quando você não está na sala.", "Jeff Bezos")),
    [ Section("Valores Inegociáveis", [TextareaOf("valores", None)]),
      Section("3 Palavras-Chave", [TextareaOf("palavras_chave", None)]),
      Section("Cliente Ideal / Persona",
              [ TextareaOf("persona_demografico", Some("Dados demográficos (idade, gênero, localização, profissão)")),
                TextareaOf("persona_dores", Some("Principais dores e frustrações")),
                TextareaOf("persona_desejos", Some("Desejos e aspirações")),
                TextareaOf("persona_objecoes", Some("Objeções comuns")) ]),
      Section("Proposta Única de Valor", [TextareaOf("proposta_valor", None)]) ])

  const CommitmentOptions: seq<string> := [
    "Postar pelo menos 3x por semana",
    "Responder comentários em até 24h",
    "Fazer stories diariamente",
    "Fazer pelo menos 1 live por mês",
    "Engajar com 10 perfis por dia",
    "Revisar métricas semanalmente" ]

  const ModuleFour := ModuleData(4, "Instagram & Conteúdo", "Estratégias para uma presença digital autêntica",
    Some(Quote("Conteúdo é rei, mas comunidade é rainha, e ela manda na casa.", "Mari Smith")),
    [ Section("Pilares de Conteúdo", [TextareaOf("pilares", None)]),
      Section("Estrutura de Legenda", [TextareaOf("template_legenda", None)]),
      Section("5 CTAs para seu Negócio", [TextareaOf("ctas", None)]),
      Section("Planejamento Semanal de Conteúdo",
              [TableOf("planejamento", ["Dia", "Tipo de Conteúdo", "Tema/Tópico"])]),
      Section("Compromisso de Consistência", [CheckboxOf("compromissos", CommitmentOptions)]) ])

  /** `workbookModules`, in the order the dashboard lists them. */
  const Modules: seq<ModuleData> := [ModuleOne, ModuleTwo, ModuleThree, ModuleFour]

  /** The activities of a module, section after section. */
  function ActivitiesOf(sections: seq<Section>): seq<Activity>
    decreases |sections|
  {
    if sections == [] then [] else sections[0].activities + ActivitiesOf(sections[1..])
  }

  function Activities(m: ModuleData): seq<Activity> {
    ActivitiesOf(m.sections)
  }

  function Ids(acts: seq<Activity>): (r: seq<string>)
    ensures |r| == |acts| && forall i :: 0 <= i < |acts| ==> r[i] == acts[i].id
  {
    seq(|acts|, i requires 0 <= i < |acts| => acts[i].id)
  }

  /** The ids of a module's activities. */
  function ActivityIds(m: ModuleData): seq<string> {
    Ids(Activities(m))
  }

  predicate Distinct(xs: seq<string>) {
    forall i, j :: 0 <= i < j < |xs| ==> xs[i] != xs[j]
  }

  /** The module with the given id, the first in the list: `find`. */
  function FindModule(id: int): (r: Option<ModuleData>)
    ensures r.Some? <==> 1 <= id <= 4
    ensures r.Some? ==> r.value == Modules[id - 1] && r.value.id == id
  {
    if 1 <= id <= 4 then Some(Modules[id - 1]) else None
  }

  // ---------------------------------------------------------------------
  // What the content guarantees

  /** The activity lists, section after section. */
  lemma ModuleOneActivities()
    ensures var s := ModuleOne.sections;
            Activities(ModuleOne) == s[0].activities + s[1].activities + s[2].activities + s[3].activities + s[4].activities
  {
    var s := ModuleOne.sections;
    assert ActivitiesOf(s[4..]) == s[4].activities by { assert s[4..][1..] == []; }
    assert ActivitiesOf(s[3..]) == s[3].activities + ActivitiesOf(s[4..]) by { assert s[3..][1..] == s[4..]; }
    assert ActivitiesOf(s[2..]) == s[2].activities + ActivitiesOf(s[3..]) by { assert s[2..][1..] == s[3..]; }
    assert ActivitiesOf(s[1..]) == s[1].activities + ActivitiesOf(s[2..]) by { assert s[1..][1..] == s[2..]; }
  }

  lemma ModuleTwoActivities()
    ensures var s := ModuleTwo.sections;
            Activities(ModuleTwo) == s[0].activities + s[1].activities + s[2].activities + s[3].activities + s[4].activities
  {
    var s := ModuleTwo.sections;
    assert ActivitiesOf(s[4..]) == s[4].activities by { assert s[4..][1..] == []; }
    assert ActivitiesOf(s[3..]) == s[3].activities + ActivitiesOf(s[4..]) by { assert s[3..][1..] == s[4..]; }
    assert ActivitiesOf(s[2..]) == s[2].activities + ActivitiesOf(s[3..]) by { assert s[2..][1..] == s[3..]; }
    assert ActivitiesOf(s[1..]) == s[1].activities + ActivitiesOf(s[2..]) by { assert s[1..][1..] == s[2..]; }
  }

  lemma ModuleThreeActivities()
    ensures var s := ModuleThree.sections;
            Activities(ModuleThree) == s[0].activities + s[1].activities + s[2].activities + s[3].activities
  {
    var s := ModuleThree.sections;
    assert ActivitiesOf(s[3..]) == s[3].activities by { assert s[3..][1..] == []; }
    assert ActivitiesOf(s[2..]) == s[2].activities + ActivitiesOf(s[3..]) by { assert s[2..][1..] == s[3..]; }
    assert ActivitiesOf(s[1..]) == s[1].activities + ActivitiesOf(s[2..]) by { assert s[1..][1..] == s[2..]; }
  }

  lemma ModuleFourActivities()
    ensures var s := ModuleFour.sections;
            Activities(ModuleFour) == s[0].activities + s[1].activities + s[2].activities + s[3].activities + s[4].activities
  {
    var s := ModuleFour.sections;
    assert ActivitiesOf(s[4..]) == s[4].activities by { assert s[4..][1..] == []; }
    assert ActivitiesOf(s[3..]) == s[3].activities + ActivitiesOf(s[4..]) by { assert s[3..][1..] == s[4..]; }
    assert ActivitiesOf(s[2..]) == s[2].activities + ActivitiesOf(s[3..]) by { assert s[2..][1..] == s[3..]; }
    assert ActivitiesOf(s[1..]) == s[1].activities + ActivitiesOf(s[2..]) by { assert s[1..][1..] == s[2..]; }
  }

  const ModuleOneIdList: seq<string> :=
    ["intencao", "satisfacao_carreira", "clareza_proposito", "networking", "posicionamento", "confianca",
     "desafios", "porque", "visao_1ano", "visao_3anos"]
  const ModuleTwoIdList: seq<string> := ["talentos", "habilidades", "talento_unico", "bloqueios", "posicionamento"]
  const ModuleThreeIdList: seq<string> :=
    ["valores", "palavras_chave", "persona_demografico", "persona_dores", "persona_desejos",
     "persona_objecoes", "proposta_valor"]
  const ModuleFourIdList: seq<string> := ["pilares", "template_legenda", "ctas", "planejamento", "compromissos"]

  /** The activity ids of each module, in order. */
  lemma ModuleIdLists(i: nat)
    requires i < 4
    ensures ActivityIds(Modules[i]) == [ModuleOneIdList, ModuleTwoIdList, ModuleThreeIdList, ModuleFourIdList][i]
  {
    match i
    case 0 => ModuleOneActivities();
    case 1 => ModuleTwoActivities();
    case 2 => ModuleThreeActivities();
    case 3 => ModuleFourActivities();
  }

  /** The modules are numbered 1 to 4 in list order, each has a quote, and
    * they hold 10, 5, 7 and 5 activities, 27 in all. */
  lemma ModuleShape(i: nat)
    requires i < 4
    ensures Modules[i].id == i + 1
    ensures Modules[i].quote.Some?
    ensures |Activities(Modules[i])| == [10, 5, 7, 5][i]
  {
    ModuleIdLists(i);
  }

  /** Within a module no two activities share an id, so an activity id names
    * one activity of its module. The same id may appear in two modules:
    * "posicionamento" is a slider of module 1 and a text of module 2. */
  lemma DistinctActivityIds(i: nat)
    requires i < 4
    ensures Distinct(ActivityIds(Modules[i]))
  {
    ModuleIdLists(i);
    if i == 0 {
      DistinctLists(0);
    } else if i == 1 {
      DistinctLists(1);
    } else if i == 2 {
      DistinctLists(2);
    } else {
      DistinctLists(3);
    }
  }

  lemma DistinctLists(i: nat)
    requires i < 4
    ensures Distinct([ModuleOneIdList, ModuleTwoIdList, ModuleThreeIdList, ModuleFourIdList][i])
  {
  }

  lemma SharedId()
    ensures "posicionamento" in ActivityIds(ModuleOne) && "posicionamento" in ActivityIds(ModuleTwo)
  {
    ModuleIdLists(0);
    ModuleIdLists(1);
    assert ModuleOneIdList[4] == "posicionamento";
    assert ModuleTwoIdList[4] == "posicionamento";
  }

  /** Every slider ranges over 1..10 and has a title, every table has
    * columns, the only checkbox has the six commitments, and no activity is
    * of the "text" kind, which the module page does not render. */
  predicate Configured(a: Activity) {
    (a.kind == Slider ==> a.min == Some(1) && a.max == Some(10) && a.title.Some?) &&
    (a.kind == Table ==> a.columns.Some? && |a.columns.value| >= 2) &&
    (a.kind == Checkbox ==> a.options == Some(CommitmentOptions)) &&
    a.kind != Text
  }

  lemma ActivitySettings(i: nat, a: Activity)
    requires i < 4 && a in Activities(Modules[i])
    ensures Configured(a)
    ensures a.kind == Checkbox ==> |a.options.value| == 6
  {
    if i == 0 {
      ModuleOneConfigured();
    } else if i == 1 {
      ModuleTwoConfigured();
    } else if i == 2 {
      ModuleThreeConfigured();
    } else {
      ModuleFourConfigured();
    }
  }

  lemma ModuleOneConfigured()
    ensures forall a :: a in Activities(ModuleOne) ==> Configured(a)
  {
    ModuleOneActivities();
  }

  lemma ModuleTwoConfigured()
    ensures forall a :: a in Activities(ModuleTwo) ==> Configured(a)
  {
    ModuleTwoActivities();
  }

  lemma ModuleThreeConfigured()
    ensures forall a :: a in Activities(ModuleThree) ==> Configured(a)
  {
    ModuleThreeActivities();
  }

  lemma ModuleFourConfigured()
    ensures forall a :: a in Activities(ModuleFour) ==> Configured(a)
  {
    ModuleFourActivities();
  }
}
