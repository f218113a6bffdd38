// The finance records as the finance screens read them, the enumerations the
// database declares for them, the keys they are stored under and the labels
// the screens show for them.

module FinanceTypes {

  import opened Strings

  datatype TransactionType = Receita | Despesa
  datatype PaymentMethod = Pix | Credito | Debito | Transferencia | Boleto
  datatype Source = Organico | Indicacao | CriadoraSamira | CriadoraSimone | CriadoraSueli | TrafegoPago
  datatype Status = Previsto | Recebido | Pago | Cancelado
  datatype Platform = Site | Whatsapp | Instagram | Sympla | PlatformIndicacao
  datatype Plan = Bronze | Prata | Ouro | Diamante

  datatype Category = Category(id: string, name: string, ctype: TransactionType, color: string, icon: string)

  /** A transaction row with its joined category, when it has one. Amounts
    * are exact decimals here. */
  datatype Transaction = Transaction(
    id: string,
    ttype: TransactionType,
    categoryId: Option<string>,
    subcategory: Option<string>,
    description: Option<string>,
    amount: real,
    date: string,
    paymentMethod: Option<PaymentMethod>,
    source: Option<Source>,
    status: Status,
    isRecurring: bool,
    category: Option<Category>)

  datatype Sale = Sale(
    id: string,
    buyerName: string,
    buyerEmail: string,
    buyerPhone: Option<string>,
    amount: real,
    source: Source,
    creator: Option<Source>,
    platform: Platform,
    date: string,
    notes: Option<string>,
    transactionId: Option<string>)

  datatype Sponsor = Sponsor(
    id: string,
    companyName: string,
    contactName: Option<string>,
    contactEmail: Option<string>,
    plan: Plan,
    contractedValue: real,
    paymentStatus: Status)

  // ---------------------------------------------------------------------
  // Stored keys

  function SourceKey(s: Source): string {
    match s
    case Organico => "organico"
    case Indicacao => "indicacao"
    case CriadoraSamira => "criadora_samira"
    case CriadoraSimone => "criadora_simone"
    case CriadoraSueli => "criadora_sueli"
    case TrafegoPago => "trafego_pago"
  }

  /** The source a stored key names, if any. */
  function ParseSource(k: string): (r: Option<Source>)
    ensures r.Some? ==> SourceKey(r.value) == k
    ensures forall s :: k == SourceKey(s) ==> r == Some(s)
  {
    if k == "organico" then Some(Organico)
    else if k == "indicacao" then Some(Indicacao)
    else if k == "criadora_samira" then Some(CriadoraSamira)
    else if k == "criadora_simone" then Some(CriadoraSimone)
    else if k == "criadora_sueli" then Some(CriadoraSueli)
    else if k == "trafego_pago" then Some(TrafegoPago)
    else None
  }

  function PlatformKey(p: Platform): string {
    match p
    case Site => "site"
    case Whatsapp => "whatsapp"
    case Instagram => "instagram"
    case Sympla => "sympla"
    case PlatformIndicacao => "indicacao"
  }

  function ParsePlatform(k: string): (r: Option<Platform>)
    ensures r.Some? ==> PlatformKey(r.value) == k
    ensures forall p :: k == PlatformKey(p) ==> r == Some(p)
  {
    if k == "site" then Some(Site)
    else if k == "whatsapp" then Some(Whatsapp)
    else if k == "instagram" then Some(Instagram)
    else if k == "sympla" then Some(Sympla)
    else if k == "indicacao" then Some(PlatformIndicacao)
    else None
  }

  function PaymentMethodKey(m: PaymentMethod): string {
    match m
    case Pix => "pix"
    case Credito => "credito"
    case Debito => "debito"
    case Transferencia => "transferencia"
    case Boleto => "boleto"
  }

  function ParsePaymentMethod(k: string): (r: Option<PaymentMethod>)
    ensures r.Some? ==> PaymentMethodKey(r.value) == k
    ensures forall m :: k == PaymentMethodKey(m) ==> r == Some(m)
  {
    if k == "pix" then Some(Pix)
    else if k == "credito" then Some(Credito)
    else if k == "debito" then Some(Debito)
    else if k == "transferencia" then Some(Transferencia)
    else if k == "boleto" then Some(Boleto)
    else None
  }

  function StatusKey(s: Status): string {
    match s
    case Previsto => "previsto"
    case Recebido => "recebido"
    case Pago => "pago"
    case Cancelado => "cancelado"
  }

  function ParseStatus(k: string): (r: Option<Status>)
    ensures r.Some? ==> StatusKey(r.value) == k
    ensures forall s :: k == StatusKey(s) ==> r == Some(s)
  {
    if k == "previsto" then Some(Previsto)
    else if k == "recebido" then Some(Recebido)
    else if k == "pago" then Some(Pago)
    else if k == "cancelado" then Some(Cancelado)
    else None
  }

  function TypeKey(t: TransactionType): string {
    match t
    case Receita => "receita"
    case Despesa => "despesa"
  }

  function ParseType(k: string): (r: Option<TransactionType>)
    ensures r.Some? ==> TypeKey(r.value) == k
    ensures forall t :: k == TypeKey(t) ==> r == Some(t)
  {
    if k == "receita" then Some(Receita) else if k == "despesa" then Some(Despesa) else None
  }

  // ---------------------------------------------------------------------
  // Labels

  function SourceLabel(s: Source): string {
    match s
    case Organico => "Orgânico"
    case Indicacao => "Indicação"
    case CriadoraSamira => "Samira"
    case CriadoraSimone => "Simone"
    case CriadoraSueli => "Sueli"
    case TrafegoPago => "Tráfego Pago"
  }

  function StatusLabel(s: Status): string {
    match s
    case Previsto => "Previsto"
    case Recebido => "Recebido"
    case Pago => "Pago"
    case Cancelado => "Cancelado"
  }

  function PlatformLabel(p: Platform): string {
    match p
    case Site => "Site"
    case Whatsapp => "WhatsApp"
    case Instagram => "Instagram"
    case Sympla => "Sympla"
    case PlatformIndicacao => "Indicação"
  }

  function PlanLabel(p: Plan): string {
    match p
    case Bronze => "Bronze"
    case Prata => "Prata"
    case Ouro => "Ouro"
    case Diamante => "Diamante"
  }

  function PaymentMethodLabel(m: PaymentMethod): string {
    match m
    case Pix => "PIX"
    case Credito => "Cartão de Crédito"
    case Debito => "Cartão de Débito"
    case Transferencia => "Transferência"
    case Boleto => "Boleto"
  }

  /** No two members of an enumeration share a key or a label, so a chart
    * series or a table cell always tells them apart. */
  lemma LabelsTellApart(a: Source, b: Source, p: Platform, q: Platform, s: Status, t: Status,
                        m: PaymentMethod, n: PaymentMethod, x: Plan, y: Plan)
    ensures SourceLabel(a) == SourceLabel(b) ==> a == b
    ensures SourceKey(a) == SourceKey(b) ==> a == b
    ensures PlatformLabel(p) == PlatformLabel(q) ==> p == q
    ensures PlatformKey(p) == PlatformKey(q) ==> p == q
    ensures StatusLabel(s) == StatusLabel(t) ==> s == t
    ensures PaymentMethodLabel(m) == PaymentMethodLabel(n) ==> m == n
    ensures PlanLabel(x) == PlanLabel(y) ==> x == y
  {
  }
}
