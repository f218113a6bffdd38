# EMPODHERA core, modelled in Dafny

EMPODHERA is a web application for a women's empowerment programme. Its admin area sends
e-mail campaigns to a contact list, imports and exports contacts, keeps the programme's
finances, and hosts an online workbook ("Caderno de Atividades") in which each participant
answers the activities of four modules. A handful of edge functions send the e-mails.
This project models the deterministic logic of that application and proves what it does.

The models are grouped as follows.

- **Campaigns** (`campaigns`, `campaign_view`, `campaign_new`, `campaign_list`): the
  status of a campaign record and the admin pages that create, schedule, cancel, send
  and delete it.
- **Dispatch** (`send_campaign`, `poller`, `test_email`): the edge functions that send
  a campaign to every contact, pick up due scheduled campaigns, and send a single test
  message.
  - The dispatcher is a method with a loop, one log row per contact.
  - The poller is a loop with one invocation and one result per due campaign.
  - The `{{nome}}` substitution follows JavaScript's `replace`, so `$` patterns in a
    contact's name are expanded.
  - The dispatcher never reads the campaign's current status, and the model does not
    add such a guard.
- **Contacts and exports** (`contacts`, `waiting_list`): the contact CSV import, with
  its header heuristic, delimiter choice, per-field cleanup and e-mail/name
  classification, and the two CSV exports. Neither follows RFC 4180 quoting.
- **E-mail edge functions** (`waiting_confirmation`, `workbook_welcome`, `email_html`):
  - presence checks;
  - first-name extraction;
  - insert-contact-unless-the-lookup-finds-one, duplicates included;
  - the AI prompt assembly and HTML fence cleanup;
  - the HTTP status each outcome maps to.
- **Finance** (`finance_types`, `finance`, `grouping`, `dre`, `sales_charts`,
  `sponsors`, `finance_stats_cards`, `finance_charts`, `transaction_form`, `sale_form`,
  `transaction_table`):
  - the dashboard totals;
  - the month, category and source groupings;
  - the income statement (DRE);
  - sales and sponsor totals;
  - the cards and charts;
  - the two forms' validation and payloads;
  - the transaction table's state.
- **Workbook** (`workbook_data`, `workbook_responses`, `workbook_progress`,
  `workbook_pages`, `workbook_login`, `activity_*`, `progress_bar`, `module_card`):
  - the module content;
  - the per-participant answer map with its last-write-wins upsert;
  - progress;
  - the module and dashboard pages;
  - the login and sign-up forms;
  - the four activity widgets, the progress bar and the module card.
- **Shared** (`strings`, `format`, `http`, `lists`): JavaScript's string operations as
  the code uses them, integer formatting and `parseInt`, `try`/`catch` messages, and
  list helpers.

How the outside world enters the model:

- The database, the e-mail provider, the AI gateway and the auth service are oracles.
  A query result is a parameter, and each provider call takes its outcome from a
  parameter.
- What the code writes or sends is returned as an ordered trace of effects, or kept in
  the fields of a class where the source keeps component state.
- Time enters as a number of milliseconds.
- Money amounts are exact `real`s.

The module card links "/modulo/N", while the application's router declares the
workbook module route as "/caderno/modulo/:moduleId" (src/App.tsx). The model keeps the
card's link as written; the module page's own navigation uses "/caderno/modulo/N".
The dashboard imports the module card from `src/components/workbook`, where the
repository holds no such file. The copy under `MIGRATION_FILES` is the one modelled.

## Model

| member | source | states |
|---|---|---|
| Campaigns.ParseStatus | src/integrations/supabase/types.ts:17-28 | the free-text `status` column reads as "other" exactly when it is none of the four values the application writes |
| Campaigns.StatusRoundTrip | src/integrations/supabase/types.ts:25 | any status text read from the column is written back unchanged |
| Campaigns.ParseStatusName | src/integrations/supabase/types.ts:25 | each well-formed status survives being written and read back |
| Campaigns.ApplyPatch | src/pages/AdminCampaignView.tsx:230-236 | an update sets the status, sets `sent_at` and `scheduled_at` only when the patch has them, and leaves every other column alone |
| Campaigns.UpdateById | src/pages/AdminCampaignView.tsx:236 | `update(...).eq("id", id)` patches only the row with that id, keeps every other row, and changes nothing when no row has that id |
| Campaigns.ScheduleThenCancel | src/pages/AdminCampaignView.tsx:230-269 | scheduling and then cancelling always leaves a draft with no schedule, and keeps its `sent_at` |
| SendCampaign.LogFor | supabase/functions/send-campaign/index.ts:60-69 | a contact's log row belongs to the campaign and the contact, and is "sent" with a time and no error exactly when the provider accepted the request |
| SendCampaign.Deliveries | supabase/functions/send-campaign/index.ts:43-74 | the loop emits two effects per contact: the provider request and its log row |
| SendCampaign.DeliveredCount | supabase/functions/send-campaign/index.ts:41-63 | the success counter never exceeds the number of contacts |
| SendCampaign.Serve | supabase/functions/send-campaign/index.ts:18-86 | the handler produces exactly the effects and reply of `Handle`: the checks first, then "sending", the loop over the contacts, "sent", and the two counters as the answer |
| SendCampaign.Deliver | supabase/functions/send-campaign/index.ts:41-76 | the loop over the contacts writes one request and then one log row per contact, in order, and its counters hold the number of deliveries and of failures, which add up to the number of contacts |
| SendCampaign.HandlePasses | supabase/functions/send-campaign/index.ts:24-80 | a request whose checks pass answers 200 with the delivery trace and the two counts |
| SendCampaign.OneEmailPerContact | supabase/functions/send-campaign/index.ts:45-56 | every contact gets exactly one request, in contact order, from the fixed sender, to that contact alone, with the campaign subject and every `{{nome}}` replaced the way `replace` does it with the contact's name or "" as replacement |
| SendCampaign.OneLogPerContact | supabase/functions/send-campaign/index.ts:58-72 | every contact gets exactly one log row, in order: "sent" with `sent_at` and no error on success, "failed" with the error text and no `sent_at` otherwise |
| SendCampaign.LogsInOrder | supabase/functions/send-campaign/index.ts:58-72 | the log rows of a delivery are, in order, the row each contact's outcome calls for |
| SendCampaign.CountMatchesLogs | supabase/functions/send-campaign/index.ts:63 | the success count is the number of "sent" log rows |
| SendCampaign.HandleErrors | supabase/functions/send-campaign/index.ts:24-35 | a body that is not JSON answers 500 with the parser's message; a missing id, an unknown campaign, and a failed or empty contact list each answer 500 with their own message; all of them before anything is written or sent |
| SendCampaign.TraceContents | supabase/functions/send-campaign/index.ts:39-76 | the status writes around the loop add no requests and no log rows |
| SendCampaign.HandleSuccess | supabase/functions/send-campaign/index.ts:39-80 | a request that passes the checks answers 200; sent plus failed is the number of contacts, sent is the number of "sent" logs, and the campaign is written "sending" first and "sent" last with no other campaign write |
| SendCampaign.TraceShape | supabase/functions/send-campaign/index.ts:39-76 | a delivery trace holds one send and one log per contact, as many "sent" logs as deliveries, and writes the campaign only first and last |
| SendCampaign.PersonalizeFillsToken | supabase/functions/send-campaign/index.ts:45 | a template with one `{{nome}}`, and no brace before it, gets a `$`-free name (or nothing, without a name) in its place and is otherwise unchanged |
| SendCampaign.GreetsAna | supabase/functions/send-campaign/index.ts:45 | "Oi {{nome}}!" reads "Oi Ana!" for a contact named Ana and "Oi !" for a contact without a name |
| SendCampaign.StatusIsIgnored | supabase/functions/send-campaign/index.ts:29-39 | the campaign's current status never changes what the handler does, so a sent campaign is delivered again |
| SendCampaign.DeliveriesIgnoreStatus | supabase/functions/send-campaign/index.ts:43-74 | the delivery loop does not depend on the campaign's status |
| SendCampaign.CampaignEndsSent | supabase/functions/send-campaign/index.ts:76 | after the request the campaign is "sent" at the finishing time, keeps its schedule, and no other campaign changes, however many deliveries failed |
| SendCampaign.PersonalizedHasNoToken | supabase/functions/send-campaign/index.ts:45 | a name that cannot rebuild the placeholder and holds no `$` leaves no `{{nome}}` in the HTML |
| SendCampaign.UnpersonalizedIsUnchanged | supabase/functions/send-campaign/index.ts:45 | HTML without the placeholder goes out unchanged |
| SendCampaign.DollarNameKeepsToken | supabase/functions/send-campaign/index.ts:45 | a contact named `$&` gets the placeholder itself back, so `{{nome}}` stays in the email |
| SendCampaign.DoubleDollarNameHalves | supabase/functions/send-campaign/index.ts:45 | a contact named `$$` is greeted with a single `$` |
| Http.CaughtMessage | supabase/functions/send-campaign/index.ts:83 | a caught error answers with its message when it is an `Error` and with "Unknown error" otherwise |
| Lists.RemoveKey | src/pages/AdminCampaigns.tsx:64 | the local list after a delete keeps exactly the rows whose id differs, and only rows that were there |
| Lists.RemoveAbsentKey | src/pages/AdminCampaigns.tsx:64 | deleting an id no row has leaves the list unchanged |
| Lists.RemoveUniqueKey | src/pages/AdminCampaigns.tsx:64 | with distinct ids exactly the one row goes and the rest keep their order |
| ScheduledPoller.Due | supabase/functions/process-scheduled-campaigns/index.ts:24-29 | the query returns only rows with status "scheduled" and `scheduled_at` at or before now, and every such row |
| ScheduledPoller.ResultFor | supabase/functions/process-scheduled-campaigns/index.ts:56-66 | each result carries the campaign id, and is "sent" with no error exactly when the invocation succeeded |
| ScheduledPoller.Serve | supabase/functions/process-scheduled-campaigns/index.ts:24-89 | a failed query answers 500 with its message; no due campaign answers "No campaigns to process" and invokes nothing; otherwise one invocation per due campaign in query order, one result each, and `processed` is the number of results |
| ScheduledPoller.Invocations | supabase/functions/process-scheduled-campaigns/index.ts:47-54 | exactly one `send-campaign` invocation per due campaign, in order, with that campaign's id |
| ScheduledPoller.OnlyDueAreInvoked | supabase/functions/process-scheduled-campaigns/index.ts:25-29 | a campaign that is not scheduled, or not yet due, is never handed to the dispatcher |
| ScheduledPoller.EveryDueIsInvoked | supabase/functions/process-scheduled-campaigns/index.ts:47-54 | every due campaign is handed to the dispatcher |
| ScheduledPoller.DueIsStable | supabase/functions/process-scheduled-campaigns/index.ts:47-67 | the poller writes no campaign row, so a due campaign stays due on every later run until its status changes |
| TestEmail.Handle | supabase/functions/send-test-email/index.ts:25-79 | a preflight answers the preflight; a body that is not JSON answers 500 with the parser's message; a missing id or address, and an unknown campaign, each answer 500 with their own message and send nothing; otherwise exactly one send, answered 200 when the provider accepts, and 500 with "Failed to send test email: " and the provider's text when it refuses |
| TestEmail.TestSendIsFilled | supabase/functions/send-test-email/index.ts:44-57 | the test send goes to the given address only, its subject starts with "[TESTE] ", and no `{{nome}}` is left in the HTML |
| TestEmail.TestEmailFillsToken | supabase/functions/send-test-email/index.ts:44 | a template with one `{{nome}}`, and no brace before it, is sent with "Teste" in its place and is otherwise unchanged |
| TestEmail.TestGreeting | supabase/functions/send-test-email/index.ts:44 | "Oi {{nome}}!" is sent as "Oi Teste!" |
| TestEmail.TestSendWritesNothing | supabase/functions/send-test-email/index.ts:47-73 | a test request at most sends one e-mail: it writes no log row and does not update the campaign |
| CampaignView.HourOptions | src/pages/AdminCampaignView.tsx:328 | the hour select offers 24 choices, the i-th being i written with two digits |
| CampaignView.HourOptionParses | src/pages/AdminCampaignView.tsx:215 | every hour offered reads back through `parseInt` as its own number |
| CampaignView.MinuteOptionParses | src/pages/AdminCampaignView.tsx:329 | the minute choices read back as exactly 0, 15, 30 and 45 |
| CampaignView.CheckSchedule | src/pages/AdminCampaignView.tsx:204-225 | a schedule is accepted exactly when a date is chosen and the moment it names is strictly after now; an accepted moment has no seconds or milliseconds |
| CampaignView.ScheduleFromOptions | src/pages/AdminCampaignView.tsx:213-225 | any offered hour and minute on a day is accepted exactly when day plus hour plus minute lies in the future, and then that is the moment written |
| CampaignView.InstantOfReadTime | src/pages/AdminCampaignView.tsx:214-215 | a readable hour and minute set the chosen day's clock to that hour and minute, seconds and milliseconds zero |
| CampaignView.CheckInstant | src/pages/AdminCampaignView.tsx:217-225 | a readable moment is accepted exactly when it is after now, and rejected as not in the future otherwise |
| CampaignView.StatusBadge | src/pages/AdminCampaignView.tsx:295-325 | no campaign gives no badge; "sent", "scheduled" (with its time) and "sending" get their own badge, and draft or any unknown status reads "Rascunho" |
| CampaignView.StatusIcon | src/pages/AdminCampaignView.tsx:284-293 | a log shows the check icon exactly when its status is "sent", the cross exactly when it is "failed", and the clock otherwise |
| CampaignView.ActionsByStatus | src/pages/AdminCampaignView.tsx:391-398 | no status offers both cancel and schedule/send; a sent, sending or unknown campaign offers none of them |
| CampaignView.Preview | src/pages/AdminCampaignView.tsx:527 | the preview leaves no `{{nome}}` behind, and shows HTML without the placeholder unchanged |
| CampaignView.PreviewFillsToken | src/pages/AdminCampaignView.tsx:527 | a template with one `{{nome}}`, and no brace before it, is previewed with "Maria" in its place and is otherwise unchanged |
| CampaignView.PreviewGreeting | src/pages/AdminCampaignView.tsx:527 | "Oi {{nome}}!" is previewed as "Oi Maria!" |
| CampaignView.CampaignPage.constructor | src/pages/AdminCampaignView.tsx:68-89 | the page opens with nothing loaded, empty test address, closed dialogs, 09:00 preselected, and asks for the campaign and its logs |
| CampaignView.CampaignPage.HandleSend | src/pages/AdminCampaignView.tsx:134-163 | without confirmation nothing is requested and the sending flag is untouched; otherwise the dispatcher is invoked, a success toasts and reloads campaign and logs, a failure toasts an error, and the flag ends cleared; the form state is untouched |
| CampaignView.CampaignPage.HandleSendTest | src/pages/AdminCampaignView.tsx:165-201 | an empty address is refused before any request, with the sending flag untouched; otherwise one test invocation with the address, after which the flag is cleared; a success closes the dialog and clears the address, a failure keeps both |
| CampaignView.CampaignPage.HandleSchedule | src/pages/AdminCampaignView.tsx:203-257 | a missing date, a moment not in the future or an unreadable time toast an error with no write; an accepted moment is written once as "scheduled" with that instant; a success closes the dialog and reloads |
| CampaignView.CampaignPage.HandleCancelSchedule | src/pages/AdminCampaignView.tsx:259-282 | without confirmation nothing is requested; otherwise one write back to draft with no schedule, then a reload on success |
| CampaignView.CampaignPage.Loaded | src/pages/AdminCampaignView.tsx:91-110 | a fetched campaign is shown; a failed fetch or a missing row leaves the page as it was, toasts "Campanha não encontrada" and goes back to the campaign list |
| CampaignView.ScheduledCampaignIsPickedUp | src/pages/AdminCampaignView.tsx:213-236 | an accepted schedule, once written, is due for the poller exactly from its moment on, and never at the moment it was accepted |
| CampaignNew.DefaultTemplateUsesName | src/pages/AdminCampaignNew.tsx:84-86 | the starting template contains the `{{nome}}` placeholder |
| CampaignNew.DefaultTemplateNotBlank | src/pages/AdminCampaignNew.tsx:102 | the starting template passes the required-content check |
| CampaignNew.DraftFor | src/pages/AdminCampaignNew.tsx:108-125 | a row is produced exactly when title, subject and HTML are all non-blank after trimming; it stores the trimmed title and subject, the untrimmed HTML and status draft |
| CampaignNew.DraftIsClean | src/pages/AdminCampaignNew.tsx:120-125 | a stored title and subject are non-empty and already trimmed, so saving the stored values again yields the same row |
| CampaignNew.NewCampaignForm.constructor | src/pages/AdminCampaignNew.tsx:100-103 | the form opens with empty title and subject, the starting template, and nothing saved |
| CampaignNew.NewCampaignForm.HandleSave | src/pages/AdminCampaignNew.tsx:107-140 | a form failing the required-field check inserts nothing; otherwise exactly the draft row is inserted once, and the outcome follows the insert's answer |
| CampaignList.Badge | src/pages/AdminCampaigns.tsx:105-114 | the list shows "Enviada" exactly for sent, "Enviando" exactly for sending, and "Rascunho" for every other status |
| CampaignList.DateShown | src/pages/AdminCampaigns.tsx:164-167 | the date column shows `sent_at` when present and `created_at` otherwise |
| CampaignList.CampaignListPage.constructor | src/pages/AdminCampaigns.tsx:28-45 | the list holds the loaded campaigns, with no send in progress |
| CampaignList.CampaignListPage.HandleDelete | src/pages/AdminCampaigns.tsx:57-73 | a delete is requested only after confirmation, and only a successful one removes exactly the rows with that id from the list, keeping the others in order |
| CampaignList.CampaignListPage.HandleSend | src/pages/AdminCampaigns.tsx:75-103 | after confirmation the dispatcher is invoked and the list reloads on success; the in-progress marker is cleared at the end |
| CampaignList.ScheduledReadsAsDraftHere | src/pages/AdminCampaigns.tsx:176 | a scheduled campaign reads "Rascunho" in the list and gets no send button |
| Contacts.CleanCell | src/pages/AdminContacts.tsx:92 | a cleaned cell holds no double quote |
| Contacts.Cells | src/pages/AdminContacts.tsx:92 | a row has one cell per delimiter-separated field, each trimmed and unquoted |
| Contacts.ClassifyEmail | src/pages/AdminContacts.tsx:95-105 | the row's address is "" exactly when no cell matches the address pattern, and otherwise is the last cell that matches |
| Contacts.ClassifyName | src/pages/AdminContacts.tsx:95-105 | the row's name is null exactly when no cell is name-like (not an address, not numeric, a `length` over one in UTF-16 code units), and otherwise is the last name-like cell |
| Contacts.EmojiIsNameLike | src/pages/AdminContacts.tsx:101 | a cell of one emoji is taken as a name, since its `length` is two |
| Contacts.DataLines | src/pages/AdminContacts.tsx:79 | a line is kept exactly when it is one of the newline-separated pieces of the file and is not blank after trimming; kept lines hold no newline |
| Contacts.NonBlank | src/pages/AdminContacts.tsx:79 | the blank-line filter keeps exactly the lines that are not blank, never more than it was given |
| Contacts.NonBlankInOrder | src/pages/AdminContacts.tsx:79 | the filter keeps the lines in the order they came |
| Contacts.DataLinesInOrder | src/pages/AdminContacts.tsx:79 | the data lines come in file order |
| Contacts.HeaderRows | src/pages/AdminContacts.tsx:82 | the first line is skipped exactly when its lower-cased text contains "email" |
| Contacts.Delimiter | src/pages/AdminContacts.tsx:85-86 | one delimiter for the whole file: ";" exactly when the first data line (or the only line) contains ";", "," otherwise |
| Contacts.RowContacts | src/pages/AdminContacts.tsx:107-109 | a line yields at most one contact |
| Contacts.Keep | src/pages/AdminContacts.tsx:107-109 | a row with no address yields nothing; otherwise one contact with the address lower-cased |
| Contacts.Collect | src/pages/AdminContacts.tsx:91-110 | the contacts collected never outnumber the data lines |
| Contacts.ImportLines | src/pages/AdminContacts.tsx:82-110 | the parsing loop yields exactly the contacts of the data lines after the header, in order |
| Contacts.ImportCsv | src/pages/AdminContacts.tsx:62-145 | no file does nothing; a name not ending in ".csv" is refused before reading; a file with no non-blank line fails as an upload error; no valid address writes nothing; otherwise the exact parsed batch is upserted once and the count reported on success |
| Contacts.ScanRow | src/pages/AdminContacts.tsx:95-105 | the inner loop over a row's cells computes the same address and name as the reference scan |
| Contacts.LowerKeepsEmailLike | src/pages/AdminContacts.tsx:108 | lower-casing keeps an address address-like |
| Contacts.ClassifiedIsAddress | src/pages/AdminContacts.tsx:99-100 | only a cell matching the address pattern is ever taken as the address |
| Contacts.RowIsAddress | src/pages/AdminContacts.tsx:107-108 | a row's contact has an address-like, lower-case address |
| Contacts.CollectedAreAddresses | src/pages/AdminContacts.tsx:91-110 | every imported contact has an address-like, lower-case address |
| Contacts.RowNameIsName | src/pages/AdminContacts.tsx:101-103 | a row's contact name, when present, is a name-like cell |
| Contacts.CollectedNames | src/pages/AdminContacts.tsx:91-110 | every imported contact's name, when present, is a name-like cell |
| Contacts.ReimportTakesDateAsName | src/pages/AdminContacts.tsx:98-105 | re-importing an exported row takes the date column as the contact's name, since it is the last name-like cell |
| Contacts.FirstLineSkipped | src/pages/AdminContacts.tsx:82 | a first line mentioning "email" is dropped even when it is a data row, and the rest is parsed with the delimiter of the second line |
| Contacts.UpsertEffect | src/pages/AdminContacts.tsx:122-124 | the upsert keeps every existing contact unchanged, adds exactly the new addresses of the batch, and a new address takes the name from its first row in the batch |
| Contacts.UpsertIdempotent | src/pages/AdminContacts.tsx:122-124 | uploading the same batch twice changes nothing the second time |
| Contacts.UpsertOfPresent | src/pages/AdminContacts.tsx:124 | a batch of addresses already present leaves the table unchanged |
| Contacts.ExportLines | src/pages/AdminContacts.tsx:167-169 | one export line per contact, in list order |
| Contacts.ExportCsv | src/pages/AdminContacts.tsx:165-171 | the export loop yields the header followed by each contact's line, joined by newlines |
| Contacts.ExportLinesRoundTrip | src/pages/AdminContacts.tsx:166-171 | reading the export back line by line gives the header and then each contact's line, when no field holds a newline |
| Contacts.ExportLineFields | src/pages/AdminContacts.tsx:168 | an export line splits back into address, name or "", and date, when no field holds a comma |
| Contacts.ContactsPage.constructor | src/pages/AdminContacts.tsx:45 | the page holds the loaded contacts and has deleted nothing |
| Contacts.ContactsPage.HandleDelete | src/pages/AdminContacts.tsx:147-163 | a delete is requested only after confirmation, and only a successful one removes the rows with that id from the list |
| WaitingList.Quoted | src/pages/AdminWaitingList.tsx:69-72 | a field is written between two double quotes with its text unchanged inside, so inner quotes are not escaped |
| WaitingList.EntryLines | src/pages/AdminWaitingList.tsx:67-74 | one line per entry, in entry order |
| WaitingList.Export | src/pages/AdminWaitingList.tsx:61-75 | nothing is exported exactly when the list is missing or empty; otherwise the header and the entry lines joined by newlines |
| WaitingList.ExportLines | src/pages/AdminWaitingList.tsx:64-75 | read back line by line, the export has one line more than there are entries: exactly "Nome,Email,Telefone,Data de Cadastro", then each entry's line in order (no field holding a newline) |
| WaitingList.EntryLineShape | src/pages/AdminWaitingList.tsx:69-72 | every line starts and ends with a quote, and a missing phone is written `""` |
| WaitingConfirmation.ConfirmationFor | supabase/functions/send-waiting-list-confirmation/index.ts:61-66 | the confirmation goes to the given address alone, from the fixed sender with the fixed subject, greeting the first word of the name |
| WaitingConfirmation.Handle | supabase/functions/send-waiting-list-confirmation/index.ts:18-176 | a preflight answers with no effect; a body that is not JSON answers 500 with the parser's message and touches nothing; any request keeps the existing rows and adds at most one; without a name the answer is 500 and only the insert may have happened; with a name the confirmation is sent last and the answer is 200 exactly when the send call returned |
| WaitingConfirmation.InsertOnlyWhenAbsent | supabase/functions/send-waiting-list-confirmation/index.ts:35-58 | a contact row is inserted exactly when the lookup handed back no row, and kept when the insert succeeds; a row the lookup found leaves the table unchanged and no insert is made |
| WaitingConfirmation.InsertFailureStillSends | supabase/functions/send-waiting-list-confirmation/index.ts:50-55 | a failed insert changes neither the requests made nor the answer, and the confirmation is still sent |
| WaitingConfirmation.OtherContactsUnchanged | supabase/functions/send-waiting-list-confirmation/index.ts:42-48 | the rows already there are kept as they were, and any row added holds the given address and name |
| WaitingConfirmation.Matching | supabase/functions/send-waiting-list-confirmation/index.ts:35-39 | the count of rows with the address, zero exactly when no row holds it |
| WaitingConfirmation.ReachableNoDuplicate | supabase/functions/send-waiting-list-confirmation/index.ts:35-48 | with the table reachable and at most one row for the address, the address ends with exactly one row |
| WaitingConfirmation.LookupFailureDuplicates | supabase/functions/send-waiting-list-confirmation/index.ts:35-48 | a failed lookup, or two rows already there, makes a registered address gain one more row |
| WaitingConfirmation.MissingNameInsertsThenFails | supabase/functions/send-waiting-list-confirmation/index.ts:42-61 | a body without a name still inserts a new address with a null name, then answers 500 before any email is sent |
| WaitingConfirmation.GreetsFirstName | supabase/functions/send-waiting-list-confirmation/index.ts:61 | the greeting's name is the start of the name up to its first space |
| WaitingConfirmation.StatusFollowsSend | supabase/functions/send-waiting-list-confirmation/index.ts:153-175 | with a name, the answer is 200 exactly when the send call returned, and 500 with the message when it threw |
| WorkbookWelcome.WelcomeFor | supabase/functions/send-workbook-welcome/index.ts:144-149 | the welcome goes to the given address alone, with the subject built from the first word of the name |
| WorkbookWelcome.Handle | supabase/functions/send-workbook-welcome/index.ts:24-167 | a preflight answers the preflight; a body that is not JSON sends nothing and answers 500 with success false and the parser's message; a missing address or name sends nothing and answers 500 with success false; otherwise one send, answered 200 when it returns and 500 with the message when it throws |
| WorkbookWelcome.SubjectNamesParticipant | supabase/functions/send-workbook-welcome/index.ts:32 | the subject contains the first name, which is the start of the name and holds no space |
| WorkbookWelcomeMigrated.WelcomeFor | MIGRATION_FILES/edge-functions/send-workbook-welcome/index.ts:115-120 | the migrated welcome comes from contato@empodhera.com, goes to the given address alone and greets the first word of the name |
| WorkbookWelcomeMigrated.Handle | MIGRATION_FILES/edge-functions/send-workbook-welcome/index.ts:22-137 | a preflight answers the preflight; a body that is not JSON answers 500 with "Failed to send email" and the parser's message as details; a missing address or name answers 400 before any send; otherwise one send, answered 200, or 500 with "Failed to send email" and the message when it throws |
| WorkbookWelcomeMigrated.VariantsAgree | MIGRATION_FILES/edge-functions/send-workbook-welcome/index.ts:25-120 | both versions send to the same address with the same subject and first name from different senders, send nothing for the same requests, and answer 200 for the same requests; a rejected request is 400 in one and 500 in the other |
| EmailHtml.PromptHolds | supabase/functions/generate-email-html/index.ts:76-85 | the user prompt contains the body text, and the button block exactly when both label and link are truthy, "SEM BOTÃO CTA" otherwise |
| EmailHtml.FenceLength | supabase/functions/generate-email-html/index.ts:128 | a fence removal takes at least the fence and never goes past the end of the text |
| EmailHtml.StripFencesClean | supabase/functions/generate-email-html/index.ts:128 | after the second pass no three backticks remain, and a text not starting with a backtick keeps its first character |
| EmailHtml.CleanedHasNoFence | supabase/functions/generate-email-html/index.ts:125-128 | the cleaned markup holds no code fence, missing content included |
| EmailHtml.NoBacktickUnchanged | supabase/functions/generate-email-html/index.ts:128 | both passes leave a text without backticks unchanged |
| EmailHtml.PlainContentTrimmed | supabase/functions/generate-email-html/index.ts:128 | content without backticks is only trimmed |
| EmailHtml.Handle | supabase/functions/generate-email-html/index.ts:13-102 | a preflight answers the preflight; a body that is not JSON answers 500 with the parser's message, whether or not the key is set; a missing key answers 500 before the text is checked; a missing or blank body answers 500 before any gateway call; otherwise the gateway is asked once with the user prompt and the reply is the outcome of its answer |
| EmailHtml.Outcome | supabase/functions/generate-email-html/index.ts:104-141 | an ok gateway answer gives 200 with the cleaned markup; 429 and 402 pass through with their fixed messages; any other status is 500 "AI Gateway error: " and the status; a thrown error is 500 with its message |
| EmailHtml.StatusMapping | supabase/functions/generate-email-html/index.ts:104-141 | every answer is 200, 429, 402 or 500; 200 exactly for an ok gateway status, and then the markup holds no fence |
| Strings.OrEmpty | supabase/functions/send-campaign/index.ts:45 | `x \|\| ""` gives the string when it is truthy and "" otherwise |
| Strings.OrNull | src/components/finance/TransactionForm.tsx:125-129 | `x \|\| null` is present exactly when the string is truthy, and then it is the string |
| Strings.Trim | src/pages/AdminCampaignNew.tsx:108 | `trim()` is empty exactly for a blank string, never longer, and otherwise neither starts nor ends with whitespace |
| Strings.TrimIdempotent | src/pages/AdminCampaignNew.tsx:121-122 | trimming twice gives what trimming once gives |
| Strings.TrimKeepsAbsence | supabase/functions/generate-email-html/index.ts:128 | trimming cannot make a substring appear |
| Strings.ToLower | src/pages/AdminContacts.tsx:82 | `toLowerCase()` keeps the length and lower-cases each character on its own |
| Strings.LowerChar | src/pages/AdminContacts.tsx:108 | an ASCII capital becomes its lower-case letter and every other character is kept |
| Strings.ToLowerIdempotent | src/pages/AdminContacts.tsx:108 | lower-casing twice gives what lower-casing once gives |
| Strings.ToLowerIsLower | src/pages/AdminContacts.tsx:108 | a lower-cased string has no ASCII capital |
| Strings.RemoveChar | src/pages/AdminContacts.tsx:92 | `replace(/"/g, "")` leaves no quote, never lengthens, and leaves a quote-free text unchanged |
| Strings.Split | src/pages/AdminContacts.tsx:79 | `split` on one character gives at least one piece, none holding the separator |
| Strings.JoinSplit | src/pages/AdminContacts.tsx:171 | joining the pieces of a split gives the text back |
| Strings.SplitJoin | src/pages/AdminContacts.tsx:171 | splitting a join of separator-free pieces gives the pieces back |
| Strings.SplitJoinWithHeader | src/pages/AdminWaitingList.tsx:65-75 | a header and lines without the separator, joined, split back into the same header and lines |
| Strings.FirstWord | supabase/functions/send-waiting-list-confirmation/index.ts:61 | `name.split(" ")[0]` is the start of the name, holds no space, and is the whole name or is followed by a space |
| Strings.ReplaceAllAbsent | supabase/functions/send-campaign/index.ts:45 | a literal global replace of a pattern the text does not hold changes nothing |
| Strings.ReplaceAllRemoves | supabase/functions/send-campaign/index.ts:45 | after a literal global replace no occurrence of the pattern is left when the replacement cannot rebuild it |
| Strings.ReplaceAllInserts | supabase/functions/send-campaign/index.ts:45 | a first occurrence, after a prefix holding no character that could start it, is replaced and the scan goes on after it |
| Strings.Expand | supabase/functions/send-campaign/index.ts:45 | a replacement text without `$` is inserted as it is |
| Strings.ReplaceFromLiteral | supabase/functions/send-campaign/index.ts:45 | from any position on, `replace` with a `$`-free replacement is the literal global replace of the rest |
| Strings.ReplaceAllJsLiteral | supabase/functions/send-campaign/index.ts:45 | `replace` with a `$`-free replacement is the literal global replace |
| Strings.ReplaceFromAbsent | supabase/functions/send-campaign/index.ts:45 | from any position on, a pattern the rest does not hold leaves the rest unchanged, whatever the replacement |
| Strings.ReplaceAllJsAbsent | supabase/functions/send-campaign/index.ts:45 | `replace` of a pattern the text does not hold changes nothing, whatever the replacement |
| Strings.LeadingDigits | src/pages/AdminCampaignView.tsx:215 | the digits `parseInt` reads are the longest run of digits at the start |
| Strings.NatToString | supabase/functions/generate-email-html/index.ts:121 | a number is written as a non-empty run of digits whose value is the number |
| Strings.Pad2 | src/pages/AdminCampaignView.tsx:328 | `padStart(2, "0")` of a number under 100 is two digits |
| Strings.ParsePad2 | src/pages/AdminCampaignView.tsx:215 | `parseInt` reads a padded number back as the number |
| Strings.JsLength | src/pages/AdminContacts.tsx:101 | `length` counts at least one and at most two code units per character |
| Strings.JsLengthIsLength | src/pages/AdminContacts.tsx:101 | `length` equals the number of characters exactly when none lies outside the Basic Multilingual Plane |
| Strings.ParseNatToString | src/pages/AdminCampaignView.tsx:215 | `parseInt` reads a written number back as the number |
| Strings.RoundPercent | src/hooks/useWorkbook.tsx:225 | `Math.round(c / t * 100)` is the integer nearest to 100c/t, halves rounded up |
| Format.IntToString | src/components/workbook/ProgressBar.tsx:28 | a number is written as a non-empty text |
| Format.ParseIntToString | src/components/workbook/ProgressBar.tsx:28 | `parseInt` reads back what `${n}` wrote, negative numbers too, whatever non-digit follows it |
| FinanceTypes.ParseSource | src/hooks/useFinance.tsx:9 | a stored source key reads back as the one source whose key it is, and a key no source has reads as none |
| FinanceTypes.ParsePlatform | src/hooks/useFinance.tsx:11 | a stored platform key reads back as the one platform whose key it is, and no other key reads as a platform |
| FinanceTypes.ParsePaymentMethod | src/hooks/useFinance.tsx:8 | a stored payment-method key reads back as the one method whose key it is, and no other key reads as a method |
| FinanceTypes.ParseStatus | src/hooks/useFinance.tsx:10 | a stored status key reads back as the one status whose key it is, and no other key reads as a status |
| FinanceTypes.ParseType | src/hooks/useFinance.tsx:7 | a stored type key reads back as the one type whose key it is, and no other key reads as a type |
| FinanceTypes.LabelsTellApart | src/hooks/useFinance.tsx:465-502 | no two sources, platforms, statuses, payment methods or plans share a label, and no two sources or platforms share a key |
| Grouping.AddToSums | src/hooks/useFinance.tsx:418-430 | one accumulation step adds the row's amounts to the record's totals and one to its row count |
| Grouping.AddToLookup | src/hooks/useFinance.tsx:420-427 | a step creates the entry of the row's key when missing, merges the row into it otherwise, and leaves every other key's entry alone |
| Grouping.LookupKey | src/hooks/useFinance.tsx:420 | an entry found under a key has that key, and one is found exactly for the record's keys |
| Grouping.AddToKeys | src/hooks/useFinance.tsx:420-422 | a step adds the row's key to the record's keys and never repeats a key |
| Grouping.GroupedDistinct | src/hooks/useFinance.tsx:418-430 | the record never holds two entries with the same key |
| Grouping.GroupedTotals | src/hooks/useFinance.tsx:418-430 | the entries' amounts add up to the rows' amounts, and their counts to the number of rows: every row lands in exactly one entry |
| Grouping.GroupedLookup | src/hooks/useFinance.tsx:436-441 | a key has an entry exactly when some row has that key; the entry carries the first such row's tag (the first-seen colour), the sums of those rows' amounts and their number |
| Grouping.GroupedKeys | src/hooks/useFinance.tsx:418-455 | the record has an entry for exactly the rows' keys |
| Grouping.LookupIn | src/hooks/useFinance.tsx:459 | an entry found under a key is one of the record's values |
| Grouping.AddItem | src/hooks/useFinance.tsx:420-427 | the in-place step, which finds the key's entry and updates it or appends a new one, leaves the record of the reference step |
| Grouping.GroupItems | src/hooks/useFinance.tsx:418-430 | the `reduce` over the rows builds the reference record |
| Grouping.AddToAt | src/hooks/useFinance.tsx:420-427 | a step updates the first entry of the key in place, or appends a new entry when there is none |
| Grouping.WithoutSplit | src/components/finance/DREView.tsx:61-62 | leaving a key out drops exactly its entry, and the amounts left plus that key's amount make up the whole |
| Grouping.KeyLeqTotal | src/hooks/useFinance.tsx:458 | any two keys are ordered one way or the other |
| Grouping.KeyLeqTrans | src/hooks/useFinance.tsx:458 | the key order is transitive |
| Grouping.SortedPairwise | src/hooks/useFinance.tsx:458 | in a sorted record every earlier key is at most every later one |
| Grouping.InsertKeeps | src/hooks/useFinance.tsx:458 | inserting an entry adds exactly that entry and its amounts |
| Grouping.InsertSorted | src/hooks/useFinance.tsx:458 | inserting into a sorted record keeps it sorted |
| Grouping.SortByKeyCorrect | src/hooks/useFinance.tsx:458 | the sorted record is in key order, is a permutation of the record, and has the same totals and counts |
| Grouping.SortByKeySorted | src/hooks/useFinance.tsx:458 | the sorted record is in key order |
| Finance.AmountAppend | src/hooks/useFinance.tsx:385-400 | one more row adds its amount to the figure of its type and status, and nothing to the others |
| Finance.ComputeStats | src/hooks/useFinance.tsx:376-407 | the loop yields received revenue, paid expenses, expected revenue and expenses, profit as their difference and margin as profit over revenue times 100 (0 without revenue); a missing result gives zeros |
| Finance.IgnoredRowsAddNothing | src/hooks/useFinance.tsx:385-400 | a cancelled row, revenue marked paid and an expense marked received change no figure |
| Finance.AmountNonNegative | src/hooks/useFinance.tsx:385-400 | non-negative amounts give non-negative figures |
| Finance.MarginAtMost100 | src/hooks/useFinance.tsx:402-405 | with non-negative amounts the margin is at most 100, and exactly 100 when there is revenue and no paid expense |
| Finance.MonthOf | src/hooks/useFinance.tsx:419 | the month key is the first seven characters of the date, or the whole date when shorter |
| Finance.MonthlyRecord | src/hooks/useFinance.tsx:418-430 | the monthly `reduce` gives the grouped record of every row by month, received revenue and paid expenses as its two amounts |
| Finance.ExpensesRecord | src/hooks/useFinance.tsx:433-443 | the expense record groups only paid expenses by category name, "Outros" and "#78716C" standing in for a missing category |
| Finance.RevenueRecord | src/hooks/useFinance.tsx:446-455 | the revenue record groups only received revenue by source, a missing source counted as "organico" |
| Finance.ChartData | src/hooks/useFinance.tsx:413-462 | the three series are those records, the monthly one sorted by month; missing rows give three empty series |
| Finance.MonthItemsTotals | src/hooks/useFinance.tsx:423-428 | every row makes one monthly row, which carries its amount only when it is received revenue or a paid expense |
| Finance.MonthItemsKeys | src/hooks/useFinance.tsx:419-422 | every row's month gets a bucket, whatever its type and status |
| Finance.MonthlyAgreesWithStats | src/hooks/useFinance.tsx:418-458 | the monthly series adds up to the cards' received revenue and paid expenses, counts every row once, has every row's month, and is in ascending month order |
| Finance.ExpenseItemsTotal | src/hooks/useFinance.tsx:433-441 | the expense rows add up to the paid expenses |
| Finance.ExpensesAgreeWithStats | src/hooks/useFinance.tsx:433-443 | the expense slices add up to the cards' paid expenses, one slice per category name |
| Finance.SourceItemsTotal | src/hooks/useFinance.tsx:446-453 | the revenue rows add up to the received revenue |
| Finance.SourceItemsKeys | src/hooks/useFinance.tsx:449 | every revenue row's key is a known source |
| Finance.RevenueAgreesWithStats | src/hooks/useFinance.tsx:446-455 | the revenue bars add up to the cards' received revenue, and every bar is a known source |
| Dre.ComputeDre | src/components/finance/DREView.tsx:42-65 | the page's loop yields the statement: revenue received or expected and expenses paid or expected per category name, their totals, the "Plataforma" fees, the other costs, the result and the margin; missing rows give an empty statement |
| Dre.RevenueItemsTotal | src/components/finance/DREView.tsx:50-51 | the revenue rows add up to the received plus the expected revenue |
| Dre.CostItemsTotal | src/components/finance/DREView.tsx:52-53 | the expense rows add up to the paid plus the expected expenses |
| Dre.DreAgainstStats | src/components/finance/DREView.tsx:45-58 | the statement's revenue is the cards' received plus expected revenue, its expenses the paid plus expected expenses, so cancelled rows count in neither |
| Dre.FeesSplit | src/components/finance/DREView.tsx:57-62 | fees and other costs make up the expenses, the listed operating costs add up to the other costs with no "Plataforma" line, and no category is listed twice |
| Dre.ResultAndMargin | src/components/finance/DREView.tsx:64-65 | the result is revenue minus all expenses, fees included; the margin is 0 without revenue and otherwise the result over revenue times 100 |
| SalesCharts.SliceColor | src/components/finance/SalesCharts.tsx:170 | slice `index` takes palette entry `index % 6` |
| SalesCharts.SliceColorsCycle | src/components/finance/SalesCharts.tsx:6-13 | the colours repeat every six slices and six slices in a row all differ |
| SalesCharts.AverageTicket | src/components/finance/SalesCharts.tsx:34-36 | the average times the number of sales is the revenue, and it is 0 without sales |
| SalesCharts.GroupSales | src/components/finance/SalesCharts.tsx:39-77 | the three `reduce` loops build the creator, platform and source groupings; missing sales give empty groupings |
| SalesCharts.CreatorItemsFacts | src/components/finance/SalesCharts.tsx:39-47 | only sales naming a creator are grouped by creator, with their revenue |
| SalesCharts.PlatformAndSourceItemsFacts | src/components/finance/SalesCharts.tsx:54-75 | every sale counts once by platform and once by source, with its amount |
| SalesCharts.GroupsAddUp | src/components/finance/SalesCharts.tsx:34-77 | the platform and source groupings count all the sales and add up to the revenue; the creator grouping counts and adds up the sales with a creator |
| SalesCharts.CreatorGroup | src/components/finance/SalesCharts.tsx:40-46 | a creator's group holds the number and sum of that creator's sales under the creator's label, and a creator without sales has no group |
| Sponsors.ContractedByStatus | src/components/finance/SponsorsTable.tsx:69 | the contracted total is the sum over all four statuses, cancelled sponsors included |
| Sponsors.ReceivableCountsCancelled | src/components/finance/SponsorsTable.tsx:86 | the receivable card is the expected plus the cancelled plus any paid values: everything not received |
| Sponsors.WithStatusBounds | src/components/finance/SponsorsTable.tsx:70 | with non-negative values, the value of one status lies between 0 and the contracted total |
| Sponsors.ReceivedWithinContracted | src/components/finance/SponsorsTable.tsx:69-86 | with non-negative values the received total lies between 0 and the contracted total, so the receivable is never negative |
| Sponsors.HandleStatusChange | src/components/finance/SponsorsTable.tsx:54-59 | the update sends the sponsor's id and the new status |
| Sponsors.Apply | src/components/finance/SponsorsTable.tsx:55-58 | the stored update gives the sponsor with that id the new status and leaves every other sponsor and field alone |
| Sponsors.ContractedUnchanged | src/components/finance/SponsorsTable.tsx:69 | a status update never moves the contracted total |
| Sponsors.StatusChangeKeepsContracted | src/components/finance/SponsorsTable.tsx:129-133 | a change through the selector keeps the contracted total, and the selector never offers "pago" |
| FinanceStatsCards.NoStatsShowsZero | src/components/finance/FinanceStats.tsx:19-55 | without figures all four cards show 0 and no "previsto" line |
| FinanceStatsCards.PrevistoLine | src/components/finance/FinanceStats.tsx:97 | only the revenue and expense cards can show an expected amount, each exactly when that amount is positive |
| FinanceStatsCards.SignStyle | src/components/finance/FinanceStats.tsx:42-53 | the profit and margin cards get their positive colour only for a strictly positive figure, so a profit of exactly 0 is styled negative |
| FinanceCharts.FormatIsoMonth | src/components/finance/FinanceCharts.tsx:28-32 | a "YYYY-MM" key shows as the month's Portuguese abbreviation, "/", and the last two digits of the year |
| FinanceCharts.MonthNameOfPad2 | src/components/finance/FinanceCharts.tsx:31 | a two-digit month number from 01 to 12 names its month |
| FinanceCharts.MonthOfIsoDate | src/components/finance/FinanceCharts.tsx:28-32 | the month key of an ISO date is "YYYY-MM", so the axis labels each bucket with its date's month |
| FinanceCharts.FormatWithoutMonth | src/components/finance/FinanceCharts.tsx:29-31 | a key without a month part shows an "undefined" month |
| FinanceCharts.SourceColor | src/components/finance/FinanceCharts.tsx:190 | a bar takes the fallback colour exactly when its key is no known source |
| FinanceCharts.SourceAxisLabel | src/components/finance/FinanceCharts.tsx:170 | a known source is labelled with its label, and any other key with the key itself |
| FinanceCharts.RevenueBarsKnown | src/components/finance/FinanceCharts.tsx:181-190 | every bar of the revenue series the dashboard builds has its own source colour and label |
| FinanceCharts.PanelFor | src/components/finance/FinanceCharts.tsx:69-72 | a series shows the "Nenhum dado disponível" placeholder exactly when it is empty |
| FinanceCharts.MonthlyPanelEmpty | src/components/finance/FinanceCharts.tsx:69 | the monthly chart shows the placeholder exactly when there are no transactions |
| TransactionForm.Validate | src/components/finance/TransactionForm.tsx:41-52 | the form passes exactly when the type and status are known keys, the amount is at least 0.01, the date is filled in, and any payment method or source given is a known key; a failing form reports at least one field and exactly the fields that fail; a passing form keeps every entered value, with each choice resolved to the option whose key was entered |
| TransactionForm.ProblemsAreFailures | src/components/finance/TransactionForm.tsx:41-52 | the schema reports a field exactly when that field fails |
| TransactionForm.OrUndefined | src/components/finance/TransactionForm.tsx:91-97 | `x \|\| undefined` keeps a value exactly when it is a non-empty text |
| TransactionForm.FreshNeedsAmount | src/components/finance/TransactionForm.tsx:102-113 | a new form starts "previsto", not recurring, of type "receita" by default, and cannot be saved; with a date filled in, its only error is the amount |
| TransactionForm.PayloadOf | src/components/finance/TransactionForm.tsx:119-130 | the payload keeps type, amount, date, status, recurrence, payment method and source, and stores category, subcategory and description exactly when they are non-empty |
| TransactionForm.Submit | src/components/finance/TransactionForm.tsx:132-139 | saving updates the edited transaction under its id and otherwise creates one, with the same payload |
| TransactionForm.EditUnchangedWritesBack | src/components/finance/TransactionForm.tsx:88-139 | opening a stored transaction and saving it unchanged updates it under its id with its own fields, empty optional texts written as null |
| TransactionForm.CategoriesFor | src/components/finance/TransactionForm.tsx:85 | the categories offered are exactly the loaded ones of the selected type |
| SaleForm.OtherProblemsNone | src/components/finance/SaleForm.tsx:39-48 | the fields other than the creator report nothing exactly when they are all valid |
| SaleForm.OtherProblemsExact | src/components/finance/SaleForm.tsx:39-48 | each field other than the creator is reported exactly when it fails |
| SaleForm.Validate | src/components/finance/SaleForm.tsx:39-49 | as written, the form passes exactly when the other fields pass and a creator, when present, is a known source key; a failing form reports at least one field and exactly the fields that fail; a passing form keeps buyer, e-mail, phone, amount, date and notes, resolves source, platform and a given creator to the options whose keys were entered, and has a creator exactly when one was given |
| SaleForm.DefaultsNeedBuyer | src/components/finance/SaleForm.tsx:59-68 | a fresh form proposes an organic sale on the site without creator, and fails on the name and the amount |
| SaleForm.CreatorMenuNames | src/components/finance/SaleForm.tsx:89 | each named entry of the creator menu is one of the three `criadora_*` sources |
| SaleForm.NoCreatorRejected | src/components/finance/SaleForm.tsx:244 | choosing "Nenhuma" hands "" to the schema, which rejects the sale with the error on the creator alone |
| SaleForm.ValidateFixed | src/components/finance/SaleForm.tsx:46 | with an empty creator read as none, the form passes exactly when the other fields pass and a non-empty creator is a known source; a passing form keeps the entered values and has a creator exactly when a non-empty one was given |
| SaleForm.EveryMenuChoiceSaves | src/components/finance/SaleForm.tsx:244-249 | with the corrected schema every menu entry can be saved, "Nenhuma" as a sale without creator |
| SaleForm.PayloadOf | src/components/finance/SaleForm.tsx:72-83 | the sale keeps buyer, e-mail, date, source, platform, amount text and creator, stores phone and notes exactly when they are non-empty, and links no transaction |
| TransactionTable.OfType | src/components/finance/TransactionTable.tsx:65-67 | filtering keeps exactly the rows of the type and leaves a list already of that type unchanged |
| TransactionTable.OfTypeCounts | src/components/finance/TransactionTable.tsx:65-67 | each row of the type is kept as often as it occurs, and no row of another type is kept |
| TransactionTable.OfTypeInOrder | src/components/finance/TransactionTable.tsx:65-67 | the rows kept appear in the order of the full list |
| TransactionTable.ListedRows | src/components/finance/TransactionTable.tsx:65-92 | an untyped table lists all rows, a typed one exactly the rows of its type; the empty state shows when nothing is loaded, and for a typed table exactly when no row has the type |
| TransactionTable.CategoryCell | src/components/finance/TransactionTable.tsx:123 | the category cell shows the category's name, or "-" when there is none or it is empty |
| TransactionTable.DescriptionCell | src/components/finance/TransactionTable.tsx:132 | the description cell shows a non-empty description, otherwise "-" |
| TransactionTable.SourceCell | src/components/finance/TransactionTable.tsx:135 | the source cell shows the source's label, or "-" without a source |
| TransactionTable.AmountSign | src/components/finance/TransactionTable.tsx:149 | revenues are signed "+" and expenses "-" |
| TransactionTable.TableState.constructor | src/components/finance/TransactionTable.tsx:61-62 | the table starts with no row being edited, none chosen for deletion and nothing deleted |
| TransactionTable.TableState.Edit | src/components/finance/TransactionTable.tsx:160 | "Editar" puts the row in the form and changes nothing else |
| TransactionTable.TableState.FormOpenChange | src/components/finance/TransactionTable.tsx:182 | closing the form forgets the row; opening changes nothing |
| TransactionTable.TableState.AskDelete | src/components/finance/TransactionTable.tsx:165 | "Excluir" chooses the row for deletion and changes nothing else |
| TransactionTable.TableState.DeleteDialogChange | src/components/finance/TransactionTable.tsx:186 | closing the confirmation forgets the chosen row; opening changes nothing |
| TransactionTable.TableState.HandleDelete | src/components/finance/TransactionTable.tsx:69-74 | with a row chosen its deletion is requested, and the choice is cleared only when the deletion succeeds; without one nothing happens |
| WorkbookData.FindModule | src/pages/WorkbookModule.tsx:21 | a module id finds a module exactly when it is 1 to 4, and then the module with that id, the id-th of the list |
| WorkbookData.ModuleIdLists | src/data/workbookModules.ts:29-334 | the activity ids of each module, section after section, are the ones the content lists, in order |
| WorkbookData.ModuleShape | src/data/workbookModules.ts:29-334 | the modules are numbered 1 to 4 in list order, each has a quote, and they hold 10, 5, 7 and 5 activities |
| WorkbookData.DistinctActivityIds | src/data/workbookModules.ts:29-334 | within a module no two activities share an id |
| WorkbookData.SharedId | src/data/workbookModules.ts:58 | "posicionamento" is an activity id of both the first and the second module |
| WorkbookData.ActivitySettings | src/data/workbookModules.ts:1-12 | every slider runs from 1 to 10 with a title, every table has at least two columns, the checkbox offers the six commitments, and no activity has the "text" kind |
| WorkbookResponses.ResponseMapLast | src/hooks/useWorkbook.tsx:126-129 | an activity is in the loaded map exactly when some row has it, and its answer is that of the last such row |
| WorkbookResponses.Apply | src/hooks/useWorkbook.tsx:146-155 | an upsert keyed on participant, module and activity stores the new answer under its key and keeps every other key's answer |
| WorkbookResponses.LastWriteWins | src/hooks/useWorkbook.tsx:146-155 | after a run of upserts a written key holds its last write, and an unwritten key keeps what it had |
| WorkbookResponses.LoadShowsTable | src/hooks/useWorkbook.tsx:117-130 | loading a listing of the participant's module shows exactly that module's stored answers |
| WorkbookResponses.SaveThenReload | src/hooks/useWorkbook.tsx:139-155 | a save followed by a reload of the same module shows the saved answer |
| WorkbookResponses.ModuleAnswers.constructor | src/hooks/useWorkbook.tsx:103-105 | the hook starts with no answers, loading and not saving |
| WorkbookResponses.ModuleAnswers.Load | src/hooks/useWorkbook.tsx:109-133 | without a participant or on an error the answers stay; fetched rows replace them by their map; loading ends in every case |
| WorkbookResponses.ModuleAnswers.Save | src/hooks/useWorkbook.tsx:139-167 | without a participant nothing happens; otherwise the local map takes the answer (also when the write fails), one upsert on participant, module and activity goes out, a failed write adds an error toast, and saving ends |
| WorkbookResponses.WorkbookAuth.constructor | src/hooks/useWorkbook.tsx:16-18 | no user, no session, loading |
| WorkbookResponses.WorkbookAuth.SessionKnown | src/hooks/useWorkbook.tsx:22-34 | an auth event or the initial read takes over the session and its user and ends loading |
| WorkbookResponses.WorkbookAuth.SignOut | src/hooks/useWorkbook.tsx:92-96 | signing out forgets both the user and the session |
| WorkbookResponses.SignUp | src/hooks/useWorkbook.tsx:44-90 | the account is always requested with the redirect to "/caderno"; only with no error and a user returned do the contact, the waiting-list entry with marketing opted in, and the welcome e-mail follow, in that order; the caller hears only the account's error |
| WorkbookProgress.ShownProgress | src/pages/WorkbookDashboard.tsx:80 | `progress[m] \|\| 0` shows the module's entry, or 0 when the map has none |
| WorkbookProgress.FetchProgress | src/hooks/useWorkbook.tsx:178-233 | the hook's loops give each module's rounded percentage of distinct answered activities over its total and the overall rounded percentage; no user or a failed query leave the empty map and 0 |
| WorkbookProgress.AnsweredMeans | src/hooks/useWorkbook.tsx:212-216 | an activity counts for a module exactly when some row records it there |
| WorkbookProgress.SameAnswersSameProgress | src/hooks/useWorkbook.tsx:205-231 | progress depends only on which activities are answered per module: order and repetition of rows do not matter |
| WorkbookProgress.IgnoredRows | src/hooks/useWorkbook.tsx:212-216 | a repeated answer, or an answer of a module outside 1 to 4, changes no percentage |
| WorkbookProgress.AllAnswers | src/data/workbookModules.ts:29-334 | one stored answer for each activity of a module, under the module's ids in order |
| WorkbookProgress.ProgressAt | src/hooks/useWorkbook.tsx:222-225 | each module 1 to 4 has an entry: its answered count over its total, rounded as `Math.round` does |
| WorkbookProgress.WrittenModuleOneOverflows | src/hooks/useWorkbook.tsx:199 | with the written total of 9, answering all ten activities of the first module shows 111 |
| WorkbookProgress.WrittenModuleOneEarly | src/hooks/useWorkbook.tsx:199 | with the written total of 9, the first module shows 100 with one activity still unanswered |
| WorkbookProgress.WrittenModuleFourStops | src/hooks/useWorkbook.tsx:202 | with the written total of 6, the fourth module, which has five activities, never passes 83 and shows 83 when complete |
| WorkbookProgress.ContentTotalsMatch | src/hooks/useWorkbook.tsx:198-203 | the corrected totals are each module's number of activities and of distinct ids |
| WorkbookProgress.RoundPercentFull | src/hooks/useWorkbook.tsx:225 | a rounded percentage of c over t, c at most t, is at most 100 and is 100 only for c equal to t |
| WorkbookProgress.ContentModuleProgress | src/hooks/useWorkbook.tsx:222-225 | with the corrected totals a module's percentage stays within 100 and is 100 exactly when all its activities are answered |
| WorkbookProgress.ContentTotalProgress | src/hooks/useWorkbook.tsx:226-231 | with the corrected totals (27 in all) the overall percentage stays within 100 and is 100 exactly when every module is complete |
| ActivityTable.EmptyRow | src/components/workbook/ActivityTable.tsx:27-33 | the empty row has exactly the columns, each holding "" |
| ActivityTable.InitialRows | src/components/workbook/ActivityTable.tsx:21-23 | the table starts with the stored rows, or one empty row when there are none |
| ActivityTable.NonEmptyRows | src/components/workbook/ActivityTable.tsx:47-49 | exactly the rows with some non-blank cell |
| ActivityTable.RemoveAt | src/components/workbook/ActivityTable.tsx:74 | removing a valid index drops that row and shifts the rest; an index outside the table changes nothing |
| ActivityTable.TableActivity.constructor | src/components/workbook/ActivityTable.tsx:21-25 | the table starts from the initial rows, unchanged and unsaved |
| ActivityTable.TableActivity.Resync | src/components/workbook/ActivityTable.tsx:35-39 | new stored rows replace the table's, unless there are none |
| ActivityTable.TableActivity.HandleChange | src/components/workbook/ActivityTable.tsx:60-65 | exactly one cell of one row takes the new text, and the table is marked changed |
| ActivityTable.TableActivity.AddRow | src/components/workbook/ActivityTable.tsx:67-70 | one empty row is appended and the table is marked changed |
| ActivityTable.TableActivity.RemoveRow | src/components/workbook/ActivityTable.tsx:72-77 | with two or more rows the row is removed and the table marked changed; the last row stays |
| ActivityTable.TableActivity.SaveTimerFires | src/components/workbook/ActivityTable.tsx:42-58 | after a change, and only when some row has text, all rows, blank ones included, are saved |
| ActivityTable.EmptyRowHasNoText | src/components/workbook/ActivityTable.tsx:46-50 | an untouched table never triggers a save |
| ActivityTable.TypedCellHasText | src/components/workbook/ActivityTable.tsx:47-51 | typing a non-blank text in a cell makes its row count for the save |
| ActivityCheckbox.Without | src/components/workbook/ActivityCheckbox.tsx:29 | the filtered selection holds exactly the selected options other than the one toggled |
| ActivityCheckbox.Toggled | src/components/workbook/ActivityCheckbox.tsx:28-30 | a selected option is removed, any other is appended at the end |
| ActivityCheckbox.ToggleFlips | src/components/workbook/ActivityCheckbox.tsx:27-48 | a toggle flips its own box and leaves every other box as it was |
| ActivityCheckbox.ToggleTwice | src/components/workbook/ActivityCheckbox.tsx:28-30 | toggling an option twice restores which options are checked |
| ActivityCheckbox.WithoutAbsent | src/components/workbook/ActivityCheckbox.tsx:29 | filtering out an absent option gives the selection back |
| ActivityCheckbox.CheckThenUncheck | src/components/workbook/ActivityCheckbox.tsx:28-30 | checking an unchecked option and unchecking it restores the very same list |
| ActivityCheckbox.ToggleNoDuplicates | src/components/workbook/ActivityCheckbox.tsx:28-30 | a toggle never makes an option appear twice |
| ActivityCheckbox.CheckboxActivity.constructor | src/components/workbook/ActivityCheckbox.tsx:20 | the selection starts as the stored value, with nothing saved |
| ActivityCheckbox.CheckboxActivity.Resync | src/components/workbook/ActivityCheckbox.tsx:23-25 | a new stored value replaces the selection |
| ActivityCheckbox.CheckboxActivity.Toggle | src/components/workbook/ActivityCheckbox.tsx:27-36 | a toggle keeps the new selection and saves it at once |
| ActivitySlider.Bounds | src/components/workbook/ActivitySlider.tsx:18-19 | the slider runs over the activity's own bounds, 1 and 10 when they are missing |
| ActivitySlider.SliderActivity.constructor | src/components/workbook/ActivitySlider.tsx:24 | the shown position starts at the stored value, with nothing saved |
| ActivitySlider.SliderActivity.Resync | src/components/workbook/ActivitySlider.tsx:27-29 | a new stored value moves the slider to it without saving |
| ActivitySlider.SliderActivity.Change | src/components/workbook/ActivitySlider.tsx:31-34 | dragging moves the shown position and saves nothing |
| ActivitySlider.SliderActivity.Commit | src/components/workbook/ActivitySlider.tsx:36-43 | the end of a drag saves its value exactly when it differs from the stored one |
| ActivityTextarea.SaveOnFire | src/components/workbook/ActivityTextarea.tsx:34-35 | the delayed save writes the text exactly when it differs from the stored text and is not blank, and it writes it untrimmed |
| ActivityTextarea.ClearingNotSaved | src/components/workbook/ActivityTextarea.tsx:34 | clearing the text, or leaving only spaces, is never saved |
| ActivityTextarea.SavedUntrimmed | src/components/workbook/ActivityTextarea.tsx:35 | a saved text keeps its surrounding spaces |
| ActivityTextarea.TextareaActivity.constructor | src/components/workbook/ActivityTextarea.tsx:24-45 | the field starts with the stored text and the delayed save armed once |
| ActivityTextarea.TextareaActivity.Resync | src/components/workbook/ActivityTextarea.tsx:27-29 | a new stored text replaces the field's text and re-arms the save |
| ActivityTextarea.TextareaActivity.Edit | src/components/workbook/ActivityTextarea.tsx:32-45 | an edit replaces the text, cancels the waiting save and arms a new one |
| ActivityTextarea.TextareaActivity.TimerFires | src/components/workbook/ActivityTextarea.tsx:33-39 | an armed save fires once, writing the text exactly when the save rule allows it |
| ProgressBar.Clamp | src/components/workbook/ProgressBar.tsx:35 | the filled width lies within 0 and 100 and equals the progress when that already does |
| ProgressBar.Render | src/components/workbook/ProgressBar.tsx:8-36 | the header shows when there is a label or the percentage is on (the default), the caption exactly for a non-empty label, the text reads back as the unclamped progress, the height follows the size (medium by default), and the width is clamped |
| ProgressBar.HeightsDiffer | src/components/workbook/ProgressBar.tsx:14-18 | the three sizes have three different heights |
| ProgressBar.TextNotClamped | src/components/workbook/ProgressBar.tsx:28-35 | above 100 the bar is drawn full while its text still says the real value |
| ModuleCard.Render | MIGRATION_FILES/components/workbook/ModuleCard.tsx:12-59 | the card links "/modulo/" followed by the module id, its text and width read back as the unclamped progress, and it is "Completo" from 100, "Continuar" above 0 and "Começar" at 0 or below |
| ModuleCard.StatusTextsDiffer | MIGRATION_FILES/components/workbook/ModuleCard.tsx:51-59 | the three statuses read differently |
| ModuleCard.WrittenModuleFourNeverComplete | MIGRATION_FILES/components/workbook/ModuleCard.tsx:12 | with the totals as written, the fourth module's card never says "Completo" |
| ModuleCard.WrittenModuleOneWidth | MIGRATION_FILES/components/workbook/ModuleCard.tsx:44 | with the totals as written, a completed first module draws its bar at 111 percent |
| ModuleCard.ContentCardComplete | MIGRATION_FILES/components/workbook/ModuleCard.tsx:12 | with the corrected totals a card says "Completo" exactly when its module is fully answered |
| WorkbookModulePage.CurrentModuleId | src/pages/WorkbookModule.tsx:20 | a missing or empty route parameter reads as module 1, any other is parsed as a decimal integer, NaN as none |
| WorkbookModulePage.PageModule | src/pages/WorkbookModule.tsx:20-21 | the page finds a module exactly when the parameter parses to 1 to 4, and then the module with that id |
| WorkbookModulePage.Redirects | src/pages/WorkbookModule.tsx:27-38 | the page leaves for "/caderno" exactly when auth has loaded without a participant, and for the dashboard exactly when no module matches |
| WorkbookModulePage.Neighbours | src/pages/WorkbookModule.tsx:50-51 | there is a previous module exactly above 1 and a next one exactly below 4, the adjacent ids |
| WorkbookModulePage.NavigationLeadsToModules | src/pages/WorkbookModule.tsx:172-202 | each navigation button leads to a page that shows the adjacent module, and only the first module's back button and the last module's forward button lead to the dashboard |
| WorkbookModulePage.NextThenPrevious | src/pages/WorkbookModule.tsx:50-51 | going forward and then back returns to the same module |
| WorkbookModulePage.RouteRoundTrip | src/pages/WorkbookModule.tsx:20 | a module id written into the route reads back as that id |
| WorkbookModulePage.Render | src/pages/WorkbookModule.tsx:53-108 | each kind of activity gets its widget under its id, fed the stored answer when it has the widget's shape and the default (empty text, position 5, no rows, nothing checked) otherwise; the "text" kind renders nothing |
| WorkbookModulePage.SaveThenRender | src/pages/WorkbookModule.tsx:54-101 | whatever a widget saves, the next render feeds back to the same widget |
| WorkbookModulePage.PageSavesAreStored | src/pages/WorkbookModule.tsx:66-101 | answers saved from a module's page stay within that module's activities |
| WorkbookModulePage.SliderDefaultInRange | src/pages/WorkbookModule.tsx:76-78 | every workbook slider ranges over 1 to 10, so its default position 5 lies inside |
| WorkbookModulePage.EmptyTableStartsWithOneRow | src/pages/WorkbookModule.tsx:88-89 | a workbook table with nothing stored starts with one empty row over at least two columns |
| WorkbookModulePage.EveryActivityRenders | src/pages/WorkbookModule.tsx:105-106 | no activity of the workbook falls to the branch that renders nothing |
| WorkbookModulePage.PageProgress | src/pages/WorkbookModule.tsx:118 | the page's bar shows the module's own percentage after a successful fetch and 0 otherwise |
| WorkbookDashboard.Redirect | src/pages/WorkbookDashboard.tsx:16-20 | the dashboard leaves for "/caderno/login" exactly when auth has loaded with nobody signed in |
| WorkbookDashboard.UserName | src/pages/WorkbookDashboard.tsx:32 | the greeting uses the stored name's first word, or "Participante" when there is no name or the first word is empty |
| WorkbookDashboard.GreetsFirstName | src/pages/WorkbookDashboard.tsx:32 | a full name greets by its first name |
| WorkbookDashboard.LeadingSpaceFallsBack | src/pages/WorkbookDashboard.tsx:32 | a name starting with a space falls back to "Participante" |
| WorkbookDashboard.ExactlyOneMessage | src/pages/WorkbookDashboard.tsx:60-64 | exactly one of the five messages shows, the one whose range holds the overall progress |
| WorkbookDashboard.CongratulatesWhenComplete | src/pages/WorkbookDashboard.tsx:64 | with the corrected totals the congratulation shows exactly when the whole workbook is answered |
| WorkbookDashboard.CardsInOrder | src/pages/WorkbookDashboard.tsx:70-83 | the i-th card is module i+1's with its shown progress, and a module without a percentage starts at 0 with "Começar" |
| WorkbookLogin.LoginIssues | src/pages/WorkbookLogin.tsx:13-16 | the login form passes exactly with a valid e-mail and a password whose `length` (UTF-16 code units) is six or more, with one message per failing field |
| WorkbookLogin.SignupIssues | src/pages/WorkbookLogin.tsx:18-27 | the sign-up form passes exactly with a name whose `length` (UTF-16 code units) is two or more, a valid e-mail, a password of `length` six or more and a matching confirmation; each failing check gives its message, and a mismatch always lands on the confirmation field |
| WorkbookLogin.EmojiNameLongEnough | src/pages/WorkbookLogin.tsx:19 | a name of one emoji passes the two-character minimum, since its `length` is two |
| WorkbookLogin.PhoneIgnored | src/pages/WorkbookLogin.tsx:21 | the phone never decides whether the sign-up form passes |
| WorkbookLogin.SignupValidLoginValid | src/pages/WorkbookLogin.tsx:13-27 | a sign-up form that passes also passes as a login with the same e-mail and password |
| WorkbookLogin.AfterLogin | src/pages/WorkbookLogin.tsx:62-80 | a failed login shows a destructive toast and stays; a successful one goes to the dashboard |
| WorkbookLogin.SignupErrorMessage | src/pages/WorkbookLogin.tsx:86-90 | the error reads "already registered" exactly when the backend's message contains that text |
| WorkbookLogin.AfterSignup | src/pages/WorkbookLogin.tsx:82-104 | a sign-up error shows a destructive toast with its message and stays; success goes to the dashboard |
| WorkbookLogin.AlreadyRegisteredReply | src/pages/WorkbookLogin.tsx:88-89 | any reply containing "already registered" tells the person to log in |
| WorkbookLogin.AutoRedirect | src/pages/WorkbookLogin.tsx:46-50 | the page leaves for the dashboard exactly when auth has loaded with someone signed in |
| WorkbookLogin.SubmitSignup | src/pages/WorkbookLogin.tsx:82-84 | a form with issues sends nothing and shows nothing; a valid one calls `signUp` with its values and its error decides the outcome |
| WorkbookLogin.SignupJourney | src/pages/WorkbookLogin.tsx:82-104 | a valid form whose account is created requests the account, the contact, the waiting-list entry and the welcome e-mail, then goes to the dashboard; a taken e-mail requests only the account and stays |
| WorkbookLogin.MismatchSendsNothing | src/pages/WorkbookLogin.tsx:24-27 | a mistyped confirmation blocks the sign-up before anything is sent |

## Left out

- The network and persistence are outside the model: Supabase queries and writes, the e-mail provider, the AI gateway and `supabase.auth`. Their answers are parameters and their requests are effects.
- CORS preflight answers, response headers other than the status, and the functions' console logging are not modelled. They do not change what is written or sent.
- The HTML e-mail bodies, the AI system prompt text, and all JSX rendering (styles, icons, toasts' timers and layout) are left out. Only the text and values the logic chooses are modelled.
- Concurrency is left out: overlapping poller runs, and a manual send racing the poller. Each run is modelled as one sequential pass.
- The 100 ms pause between two sends of `send-campaign` is a timer, so it is not modelled.
- Dates, timezones and the date libraries are left out. A calendar day is a number of days since the epoch, the schedule instant is that day plus the hour and minute, with no timezone or daylight-saving shift, and a rendered date is an opaque string.
- Money is an exact `real`, not an IEEE double. `parseFloat` on the sale amount is not modelled, so the sale payload keeps the amount as text, and `Intl.NumberFormat` and `toFixed` are not modelled.
- `Math.round` over a quotient is modelled as exact half-up rounding of a non-negative rational. A double that lands just below a .5 tie is not modelled.
- Progress values, slider positions and the slider's fixed step of 1 are kept as integers.
- zod's `.email()` and the contacts page's address pattern are modelled as one explicit character-class predicate: one `@`, a non-empty local part, a domain with an inner dot, and no whitespace. zod's full address grammar is not modelled.
- Lower-casing (`toLowerCase`, and the case-insensitive regex flag) is modelled on ASCII letters only.
- `localeCompare` on month keys is modelled as code-unit order, which agrees with it on the "YYYY-MM" keys the code builds.
- `Object.values` is modelled as returning entries in the order their keys first appeared. JavaScript lists integer-like keys first. The month, source, creator and platform keys are never integer-like, but category names come from the editable categories table, so the order of the category groups holds only for names that are not integer-like.
- Finance.ExpensesRecord: groups by category name, so a category named like an integer ("2024") would come first in JavaScript and comes in first-seen position in the model.
- Dre.ComputeDre: the revenue and cost lines are grouped by category name, with the same first-seen order for integer-like names as `Finance.ExpensesRecord`.
- The "Plataforma" fees row of the DRE and the rest of the statement's layout are rendering only. Its figures are modelled in `Dre.ComputeDre`.
- The delete confirmations (AlertDialog) on the admin pages are rendering only. The deletion they confirm is modelled.
- The markup at src/pages/WorkbookDashboard.tsx:97 has an unmatched closing fragment. Only the dashboard's logic is modelled.
- The preview on the new-campaign page (src/pages/AdminCampaignNew.tsx:203) is the same `{{nome}}`-to-"Maria" replacement as the campaign page's preview, which is modelled as `CampaignView.Preview`. It has no member of its own.
- The loading spinners and the `isLoading`/`isSaving`/`isLogin` flags of the forms and pages only switch what is drawn, so they are not modelled. The workbook hooks keep theirs.
- The admin dashboard's counts, the route table, the layout guards, the headers, the quote block and the marketing sections are not part of this model. They hold no logic beyond rendering.
- The generated database types hold no behaviour. Their enum values define the datatypes here.
- WorkbookLogin.AfterLogin: `signIn` itself only passes the auth service's error through, so it is modelled as the `failed` flag that the service returns.
- WorkbookModulePage.Render: `Array.isArray` hands any stored array to a table or a checkbox. The model stores an answer with one shape per widget, so an array of the other widget's shape is not modelled.
- ActivityTextarea.TextareaActivity: the delayed save is a pending flag, not a duration. A new `onSave` handler from the parent, which also re-arms the save in the source, is not modelled.
- ActivityTable.TableActivity.SaveTimerFires: the 1.5 s debounce is not modelled. The save fires against the current rows, which are the rows of the last change. The timer is an event the model allows at any time, as often as it comes. In the source it is re-armed whenever the parent passes a new `onSave`, which the workbook page does on every render, and `hasChanged` is never cleared, so after one edit with text the table saves again after each save's re-render while the page stays open. The model admits those repeated saves but does not produce the re-arming itself.
- SendCampaign.PersonalizedHasNoToken: promised only for names without `$`. A name such as `$&` expands to the placeholder itself (`SendCampaign.DollarNameKeepsToken`), and `` $` `` to the text before it, so such names can leave `{{nome}}` in the email.
- Strings.Expand: the replacement patterns are those of a pattern without capture groups, which is what every `replace` in the code uses; `$1` and `$<` are kept as written, as they are for such a pattern.
- SendCampaign.Request, TestEmail.Request, EmailHtml.Request, WorkbookWelcome.Request: a body that is not JSON is the case `Unparsable`, and the parser's message is a parameter, since its wording comes from the runtime.
- Strings.JsLength: text is a sequence of Unicode scalar values, so a lone surrogate, which a JavaScript string can hold, cannot be written; every other string has the `length` JavaScript gives it.
- Strings.ParseInt: `parseInt` without a radix reads a leading "0x" as hexadecimal; the model reads base 10 only, and neither call site can receive such text.
- WaitingConfirmation.Handle: a body without `email` is not modelled; the address is a string. A `name` of JSON `null` is modelled like a missing one, with the message for `undefined`; the runtime's wording of both messages is outside the code. The parser's message for a body that is not JSON is a parameter.
- WorkbookProgress.FetchProgress: the totals are a parameter that must cover modules 1 to 4, as both the written table and the corrected one do.

## Findings

| source | as written | input that shows it | evidently intended | confidence | as-written member | corrected member |
|---|---|---|---|---|---|---|
| src/components/finance/SaleForm.tsx:244 | the creator menu's "Nenhuma" entry has the value "", but the schema's optional `creator` accepts only a source key, so "" fails validation | a sale with all other fields valid and "Nenhuma" picked in the creator menu is rejected with an error on the creator | "Nenhuma" saves the sale without a creator, as the payload's `\|\| null` expects | not executed | SaleForm.NoCreatorRejected | SaleForm.EveryMenuChoiceSaves |
| src/hooks/useWorkbook.tsx:198-203 | the activity totals per module are 9, 5, 6 and 6, while the content holds 10, 5, 7 and 5 activities | answering all ten activities of module 1 shows 111%; module 1 reaches 100% with one activity left; module 4 stops at 83% when complete | each module's total is its number of activities (27 in all), so a percentage reaches 100 exactly when the module is complete | not executed | WorkbookProgress.WrittenModuleOneOverflows | WorkbookProgress.ContentModuleProgress |
