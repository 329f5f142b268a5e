# Comissão Expressa: a verified model of the pricing, commission and template logic

This project is a Dafny model of **Comissão Expressa Gestão**, a sales-administration front end. Users keep a catalogue
of articles (services, hour packs, marketing, websites) with a sale price ("PVP"), a margin and a cost. They build
proposals from those articles and track the commissions owed to the commercial staff on won proposals. They also
design document templates made of ordered pages.

The model covers the logic the screens carry out:

- **Pricing formulas.** Margin from a sale price, sale price from a cost, and line totals.
- **Proposal-line editor.** Add, edit, remove and fill a line from the catalogue. Each edit runs a recompute cascade
  that depends on the line's calculation mode.
- **Article editor.** The four price fields stay consistent with each other. Saving an article sets a commission
  from the group rate.
- **Commission payments.** The rules for recording a payment and the status moves it causes.
- **Proposal articles.** The proposal's totals are recomputed after each add or remove.
- **Proposal-form totals and submit checks.**
- **Template page list.** Page titles, drag-and-drop reorder, update, removal and the checks made before saving.

Modelling conventions:

- **Money and percentages** are exact `real` numbers.
- **A numeric `<input>` holds text.** That text is `Common.Entry`: either blank or a number. `parseFloat(x) || 0` is
  `Common.Parse0`.
- **`parseInt`** yields `Option<int>`, with `None` when no number is read.
- **React state updates** (`setX(next)`) are modelled as a function or method that returns the next state.
- **`reduce` sums** are left folds, so the model adds in JavaScript's order.
- **Copied and spliced arrays.** Where the code copies a list into an array and changes it in place, the model does
  the same on a fresh Dafny `array`. This applies to `updateProposalLine`, `selectArticle`, `handleDragEnd` and
  `onDragEnd`. Each such method is proved equal to a reference function: `ProposalLinesTable.EditLine`,
  `ProposalLinesTable.ArticleSelection` and `TemplatePages.Moved`.
- **Ids and dates** come from `Date.now()` and `crypto.randomUUID()` in the source. Here they are parameters.
- **Catalogues** are parameters, both the article list and the list of won proposals.

The drag handler, page removal and the save checks are the same code on both template screens. Each is modelled once
in `TemplatePages`. The other template-screen operations are separate members, and lemmas show that the two screens
agree: `EditTemplate.AddNewPage` and `EditTemplate.UpdatePageAgrees`.

The model keeps these quirks of the code:

- **Cost mode.** Editing the cost price of a line in "cost" mode recomputes neither the margin nor the sale price.
- **Commission rates.** There are exactly four group rates and no default rate. The group is a four-value datatype,
  so an unknown group cannot be expressed.
- **Margin % basis.** The article editor takes its margin % as a share of the sale price. The line editor's catalogue
  fill takes it as a share of the purchase price.
- **"manual" selection.** Choosing "manual" on a line zeroes its prices but leaves its stored total as it was.
- **Proposal save.** Saving an edited proposal resets both of its totals to 0 and its creation date to the day of
  the save, although it keeps its articles.

## Model

| member | source | states |
|---|---|---|
| ProposalCalculations.CalculateLineFromPvp | src/utils/proposalCalculations.ts:4-8 | cost + margin € equals the sale price; the margin € is marginPercent % of the sale price |
| ProposalCalculations.CalculateLineFromCost | src/utils/proposalCalculations.ts:10-26 | sale price = cost + margin €. Percentage branch: the percentage is kept and margin € is that percentage of the cost. Absolute branch: margin € is the input, and the percentage is margin €/cost × 100 when cost > 0, else 0 (no division by zero) |
| ProposalCalculations.PercentThenAbsolute | src/utils/proposalCalculations.ts:15-23 | for a positive cost, the percentage branch then the absolute branch on its margin returns the original percentage and the same price |
| ProposalCalculations.AbsoluteThenPercent | src/utils/proposalCalculations.ts:15-23 | for a positive cost, the absolute branch then the percentage branch on its percentage returns the original margin and price |
| ProposalCalculations.PvpMarginRoundTrip | src/utils/proposalCalculations.ts:4-8 | on a positive sale price, margin €/price × 100 recovers the margin percentage |
| ProposalCalculations.SubtotalAppend | src/utils/proposalCalculations.ts:29 | the subtotal (`Subtotal`, the left fold of the line totals) is additive over concatenation of line lists |
| ProposalCalculations.CalculateLineTotals | src/utils/proposalCalculations.ts:28-34 | subtotal is `Subtotal`, the left-to-right sum of line totals (0 for no lines); total = subtotal − subtotal × discount/100 |
| ProposalCalculations.DefaultDiscount | src/utils/proposalCalculations.ts:28-33 | with the default discount 0 the total equals the subtotal |
| ProposalLinesTable.AddProposalLine | src/components/ProposalLinesTable.tsx:20-34 | exactly one line is appended and earlier lines are unchanged; it has no id and no article, quantity 1, unit "un", "pvp" mode, and prices, margins, discount and total 0 |
| ProposalLinesTable.RemoveProposalLine | src/components/ProposalLinesTable.tsx:105-109 | exactly the element at the index is dropped and the rest keep their order (an out-of-range index changes nothing) |
| ProposalLinesTable.AddThenRemove | src/components/ProposalLinesTable.tsx:20-34 | removing the line just added restores the list |
| ProposalLinesTable.EditLine | src/components/ProposalLinesTable.tsx:36-99 | after any edit, line total = quantity × price less the discount; ids are never changed; text, quantity, discount and mode change only through their own edit |
| ProposalLinesTable.ModeChangeResets | src/components/ProposalLinesTable.tsx:44-52 | a mode change zeroes price, cost, margin % and margin €, so the total becomes 0 |
| ProposalLinesTable.PvpEdit | src/components/ProposalLinesTable.tsx:53-67 | in "pvp" mode a price or margin % edit recomputes margin € and cost (summing to the price) only when both values are positive; otherwise they keep their old values |
| ProposalLinesTable.PvpOtherEdit | src/components/ProposalLinesTable.tsx:53-67 | in "pvp" mode any other edit only stores its value and the new total |
| ProposalLinesTable.CostMarginPercentEdit | src/components/ProposalLinesTable.tsx:70-80 | in "cost" mode with a positive cost, a margin % edit sets margin € to that share of the cost and price = cost + margin € |
| ProposalLinesTable.CostMarginEuroEdit | src/components/ProposalLinesTable.tsx:70-91 | in "cost" mode with a positive cost, a margin € edit sets the margin % on the cost basis and price = cost + margin € |
| ProposalLinesTable.CostNoRecompute | src/components/ProposalLinesTable.tsx:68-93 | in "cost" mode, editing the cost alone, or editing anything while the cost is not positive, recomputes nothing |
| ProposalLinesTable.EditLineIdempotent | src/components/ProposalLinesTable.tsx:36-103 | applying the same edit twice gives the line that one application gives |
| ProposalLinesTable.UpdateProposalLine | src/components/ProposalLinesTable.tsx:36-103 | the in-place update of a copied list keeps the length, leaves every other index unchanged, and leaves `EditLine` of the old line at the index |
| ProposalLinesTable.ArticleSelection | src/components/ProposalLinesTable.tsx:111-163 | "manual" clears the article and prices but leaves the total stale; an unknown id changes nothing; a found article fills description, unit, sale and purchase price, margin € = sale − purchase, margin % on the purchase basis (0 when purchase ≤ 0), and recomputes the total; quantity, discount, mode and id stay |
| ProposalLinesTable.ArticleSelectionIdempotent | src/components/ProposalLinesTable.tsx:111-163 | choosing the same article a second time leaves the line as the first choice left it |
| ProposalLinesTable.SelectArticle | src/components/ProposalLinesTable.tsx:111-163 | the list copied into an array and changed in place equals the old list with only the line at the index replaced by its `ArticleSelection` |
| ArticleManagement.CommissionRate | src/components/ArticleManagement.tsx:64-69 | rates lie between 5% and 20%, and only Marketing has 20% |
| ArticleManagement.FromMarginPercent | src/components/ArticleManagement.tsx:79-82 | margin € is mp % of the sale price, and cost = price − margin € |
| ArticleManagement.PercentOfPvp | src/components/ArticleManagement.tsx:83-90 | the percentage times the price is 100 × margin € when the price is positive, else 0 |
| ArticleManagement.CalculateValues | src/components/ArticleManagement.tsx:71-103 | for all four price fields, cost + margin € = sale price. The edited margin or cost is kept. A margin € or cost edit derives the percentage guarded by price > 0. A price edit keeps the stored percentage and re-applies it. Blank input reads as 0 |
| ArticleManagement.HandleInputChange | src/components/ArticleManagement.tsx:105-116 | a non-price edit changes only its own field; a price edit keeps name, description and group, keeps the typed text only for the sale price, and leaves the three derived fields consistent with it, each equal to what `calculateValues` computes from the form before the edit |
| ArticleManagement.PriceEditIdempotent | src/components/ArticleManagement.tsx:105-116 | repeating the same price edit changes nothing more |
| ArticleManagement.ArticleData | src/components/ArticleManagement.tsx:138-160 | name, description, group and the four prices are the form's; commission = margin € × group rate; the editing id is kept, otherwise the new id is used |
| ArticleManagement.HandleSubmit | src/components/ArticleManagement.tsx:132-163 | rejected exactly when name, group or sale price is missing; otherwise the edited article is replaced, or a new article is appended |
| ArticleManagement.HandleDelete | src/components/ArticleManagement.tsx:179-182 | exactly the articles without that id remain |
| ArticleManagement.HandleDeleteKeepsOrder | src/components/ArticleManagement.tsx:179-182 | deletion works article by article over any split of the list, so the remaining articles keep their order |
| ArticleManagement.ResetForm | src/components/ArticleManagement.tsx:118-130 | every field is blank and no group is chosen |
| ArticleManagement.ResetFormRejected | src/components/ArticleManagement.tsx:118-136 | a cleared form is rejected on save |
| ArticleManagement.HandleEdit | src/components/ArticleManagement.tsx:165-177 | the form shows the article's name, description, group and four prices |
| ArticleManagement.EditThenSave | src/components/ArticleManagement.tsx:138-177 | opening a named article and saving it unchanged gives it back with only its commission recomputed |
| ArticleManagement.SeedArticlesAgree | src/components/ArticleManagement.tsx:27-50 | seed prices agree with the formulas: 1500 × 7.5% = 112.50 and 400 × 20% = 80 |
| ArticleManagement.SavedAfterPriceEdit | src/components/ArticleManagement.tsx:105-141 | an article saved after a price edit has cost + margin = price, and commission = margin × rate |
| CommissionManagement.CommissionData | src/components/CommissionManagement.tsx:118-131 | total = the proposal's commission, and paid + pending = total; a new commission has paid 0, pending = total and status "A pagar"; proposal, commercial and notes come from the form, the client from the proposal, the id and payment date from the edited record or a new id and none |
| CommissionManagement.HandleSubmit | src/components/CommissionManagement.tsx:107-146 | each error holds exactly when its condition holds: missing proposal/commercial, proposal not among the won ones, or a second commission for the same proposal. A new record, `CommissionData` of the first won proposal with that id, is appended to the unchanged list. An edit replaces the records with the edited id by the rebuilt record, which keeps the paid value, status and payment date (a path the page's dialog does not reach, since its button pays while editing) |
| CommissionManagement.SubmitKeepsValid | src/components/CommissionManagement.tsx:107-146 | creating a commission keeps every record conserved and non-negative |
| CommissionManagement.Paid | src/components/CommissionManagement.tsx:172-189 | paid' = paid + amount and paid' + pending' = total; status "Pago" iff pending' = 0; a payment of at most the pending amount keeps the record valid and never leaves it "A pagar"; the date and notes come from the form and id, proposal, client and commercial stay |
| CommissionManagement.ResetForm | src/components/CommissionManagement.tsx:83-93 | every field of the dialog is blank |
| CommissionManagement.ResetFormRejected | src/components/CommissionManagement.tsx:107-111 | a cleared dialog is rejected for missing fields |
| CommissionManagement.HandlePayment | src/components/CommissionManagement.tsx:148-158 | the dialog shows the commission's proposal, commercial and notes (or ""), with amount and date blank |
| CommissionManagement.PaymentKeepsNotes | src/components/CommissionManagement.tsx:148-189 | a payment saved with the notes the dialog opened with keeps the commission's notes (unless they were an empty string) |
| CommissionManagement.ProcessPayment | src/components/CommissionManagement.tsx:160-196 | "missing" iff there is no record, amount or date; "invalid" iff the amount is ≤ 0 or exceeds the pending amount; otherwise only records with the edited id are replaced by the paid record; nothing can be paid on a record with nothing pending |
| CommissionManagement.SummaryConserved | src/components/CommissionManagement.tsx:217-219 | if each record is conserved, total pending = total commissions − total paid, over the three left folds `TotalPending`, `TotalCommissions` and `TotalPaid` |
| CommissionManagement.SeedCommissions | src/components/CommissionManagement.tsx:33-55 | the seed commissions are valid |
| ProposalManagement.Quantity | src/components/ProposalManagement.tsx:214 | `parseInt(q) \|\| 1` is never 0 and defaults to 1 |
| ProposalManagement.ProposalArticleOf | src/components/ProposalManagement.tsx:215-219 | the line commission = unit commission × quantity; id, name, description, group, sale price, margins and cost are the article's |
| ProposalManagement.AddArticleToProposal | src/components/ProposalManagement.tsx:208-234 | no-op without an article id, a selected proposal, or a catalogue match; otherwise exactly one article is appended, the totals are recomputed (each grows by that line's value and commission), the proposal is replaced in the list, and the row is reset |
| ProposalManagement.RemoveArticleFromProposal | src/components/ProposalManagement.tsx:236-251 | every article with the id goes and the others stay; the totals are recomputed and the proposal replaced in the list |
| ProposalManagement.TotalValueSnoc | src/components/ProposalManagement.tsx:227 | appending an article adds its price × quantity to `TotalValue`, the left fold of the articles' value |
| ProposalManagement.TotalCommissionSnoc | src/components/ProposalManagement.tsx:228 | appending an article adds its commission to `TotalCommission`, the left fold of the articles' commission |
| ProposalManagement.TotalValueSplit | src/components/ProposalManagement.tsx:227 | splitting the articles by a test splits Σ price × quantity the same way |
| ProposalManagement.TotalCommissionSplit | src/components/ProposalManagement.tsx:228 | the same for Σ commission |
| ProposalManagement.RemovedTotals | src/components/ProposalManagement.tsx:240-246 | after a removal both totals drop by exactly the removed articles' totals |
| ProposalManagement.HandleInputChange | src/components/ProposalManagement.tsx:146-157 | a status choice changes only the status; a client choice sets the client id and copies the name of the first client with that id, or "" when none has it |
| ProposalManagement.ClientNameFollowsId | src/components/ProposalManagement.tsx:99-103 | choosing any of the three listed clients puts exactly that client's name in the form |
| ProposalManagement.ProposalData | src/components/ProposalManagement.tsx:165-174 | the saved record has the edited proposal's id (a new id when none or empty), status and client from the form, the edited articles (none for a new one), both totals 0 and today's date as creation date |
| ProposalManagement.HandleSubmit | src/components/ProposalManagement.tsx:159-186 | rejected iff client or status is missing; a new record is appended after the unchanged list; an edit replaces exactly the proposals with the edited id by the saved record and keeps the rest |
| ProposalManagement.EditResetsTotals | src/components/ProposalManagement.tsx:165-180 | saving an edit keeps the proposal's articles but sets its totals to 0 and its creation date to today |
| ProposalManagement.HandleDelete | src/components/ProposalManagement.tsx:198-201 | exactly the proposals without that id remain |
| ProposalManagement.HandleDeleteKeepsOrder | src/components/ProposalManagement.tsx:198-201 | deletion works proposal by proposal over any split of the list, so the remaining proposals keep their order |
| ProposalManagement.ResetForm | src/components/ProposalManagement.tsx:136-144 | the form starts at status "Aberta" with no client |
| ProposalManagement.ResetFormRejected | src/components/ProposalManagement.tsx:136-163 | a cleared form is rejected on save, since it has no client |
| ProposalManagement.HandleEdit | src/components/ProposalManagement.tsx:188-196 | the form shows the proposal's status, client id and client name |
| ProposalManagement.EditThenSave | src/components/ProposalManagement.tsx:159-196 | opening a proposal with a client and saving it unchanged keeps it, except that both totals become 0 and its creation date becomes today |
| ProposalManagement.SeedMarketingLine | src/components/ProposalManagement.tsx:79-84 | the Marketing article at quantity 3 has commission 80 × 3 = 240 and value 2400 |
| ProposalForm.CalculateTotals | src/components/ProposalForm.tsx:60-71 | subtotal is the sum of line totals; discount = subtotal × d/100; total = subtotal − discount; commission = total × c/100; nothing else changes |
| ProposalForm.TotalsAdditive | src/components/ProposalForm.tsx:60-71 | subtotal, discount, total and commission are all additive over concatenated line lists |
| ProposalForm.CommissionOnDiscountedTotal | src/components/ProposalForm.tsx:61-63 | the commission is taken of the post-discount amount: subtotal × (100 − d) × c / 10000 |
| ProposalForm.SelectTemplate | src/components/ProposalForm.tsx:53-58 | the form records the selected template id, none for no selection, and nothing else changes |
| ProposalForm.HandleSubmit | src/components/ProposalForm.tsx:73-103 | rejected exactly when the number or the client is missing, or (when both are present) when no template is selected; otherwise the form and lines go on unchanged |
| ProposalForm.SubmittedWithTemplate | src/components/ProposalForm.tsx:53-92 | once the selection effect has run, an accepted proposal carries the selected template |
| TemplatePages.NatToString | src/pages/CreateTemplate.tsx:33 | the numeral is a non-empty string of decimal digits |
| TemplatePages.NatToStringValue | src/pages/CreateTemplate.tsx:33 | the numeral read back as decimal digits is the number, with no leading zero |
| TemplatePages.NatToStringInjective | src/pages/CreateTemplate.tsx:33 | different numbers print differently |
| TemplatePages.PageTitle | src/pages/CreateTemplate.tsx:30-33 | "Corpo" exactly for an empty list, otherwise "Página n" with n the prior page count |
| TemplatePages.PageTitleInjective | src/pages/CreateTemplate.tsx:30-33 | different page counts give different titles |
| TemplatePages.SecondAndThirdTitles | src/pages/CreateTemplate.tsx:30-33 | the second page is "Página 1" and the third "Página 2" |
| TemplatePages.MovedAt | src/pages/CreateTemplate.tsx:52-54 | element by element, the splice-out/splice-in result: the pages before the destination, the moved page, then the rest shifted |
| TemplatePages.MovedIsPermutation | src/pages/CreateTemplate.tsx:52-54 | a move keeps the length and the multiset of pages and puts the dragged page at the destination |
| TemplatePages.MoveBackUndoes | src/pages/CreateTemplate.tsx:52-54 | dragging back from the destination to the source restores the list |
| TemplatePages.MoveInPlace | src/pages/CreateTemplate.tsx:52-54 | dropping where the drag started changes nothing |
| TemplatePages.DragEnd | src/pages/CreateTemplate.tsx:49-57 | no destination: unchanged; otherwise the copied array after both in-place splices equals the moved list (the identical `onDragEnd` is src/pages/EditTemplate.tsx:107-115) |
| TemplatePages.RemovePage | src/pages/CreateTemplate.tsx:39-41 | exactly the pages without that id remain (and `deletePage`, src/pages/EditTemplate.tsx:92-94) |
| TemplatePages.RemovePageKeepsOrder | src/pages/CreateTemplate.tsx:39-41 | removal distributes over any split of the list and acts page by page, so the kept pages stay in order |
| TemplatePages.RemoveAbsentPage | src/pages/EditTemplate.tsx:92-94 | removing an id no page carries leaves the list unchanged |
| TemplatePages.TrimBlank | src/pages/CreateTemplate.tsx:60 | a name trims to "" exactly when all of its characters are white space |
| TemplatePages.ValidateSave | src/pages/CreateTemplate.tsx:59-68 | a blank trimmed name is rejected first, then an empty page list; otherwise the untrimmed name and the pages are saved (identical checks: src/pages/EditTemplate.tsx:117-126) |
| CreateTemplate.Merge | src/pages/CreateTemplate.tsx:45 | each field comes from the update when present, otherwise from the page |
| CreateTemplate.AddPage | src/pages/CreateTemplate.tsx:29-37 | the list grows by one at the end; the new page is vertical with the given id and titled by the prior count |
| CreateTemplate.AddPageKeepsNumbered | src/pages/CreateTemplate.tsx:29-37 | a list built by adding keeps each page titled after its position |
| CreateTemplate.NumberedTitlesDistinct | src/pages/CreateTemplate.tsx:29-37 | in such a list no two pages share a title |
| CreateTemplate.RemoveThenAddRepeatsTitle | src/pages/CreateTemplate.tsx:29-41 | titles follow the count, not the numbers in use: removing the body and then adding gives two pages titled "Página 1" |
| CreateTemplate.UpdatePage | src/pages/CreateTemplate.tsx:43-47 | the length is kept; only pages with the id get the update merged, the others are unchanged |
| CreateTemplate.UpdatePageIdempotent | src/pages/CreateTemplate.tsx:43-47 | repeating an update that keeps the id changes nothing more |
| CreateTemplate.EmptyUpdate | src/pages/CreateTemplate.tsx:43-47 | an empty update changes nothing |
| EditTemplate.LoadPages | src/pages/EditTemplate.tsx:53-55 | a stored value that is not an array loads as no pages; an array loads as itself |
| EditTemplate.AddNewPage | src/pages/EditTemplate.tsx:66-84 | the method with its reassigned title equals the create screen's `addPage`: one vertical page appended, titled "Corpo" or "Página n" |
| EditTemplate.SetField | src/pages/EditTemplate.tsx:88 | only the named field takes the value |
| EditTemplate.UpdatePage | src/pages/EditTemplate.tsx:86-90 | the length is kept; only pages with the id get the field set |
| EditTemplate.UpdatePageAgrees | src/pages/EditTemplate.tsx:86-90 | setting one field equals the create screen's update with a one-field partial page |

## Left out

- `toFixed(2)` rounding and all floating-point behaviour. Arithmetic is exact, so `=== 0` on the pending amount is
  exact equality.
  - ArticleManagement.HandleInputChange: stores the exact computed values, not the text of their two-decimal rounding
    (src/components/ArticleManagement.tsx:98-102).
- ArticleManagement.CalculateValues: reads the form as it is passed in. The source reads the form of the last render,
  and a stale read between two fast edits is not modelled.
- ProposalForm.CalculateTotals: takes the discount and commission percentages from the form it is given. The page
  passes the last render's form (src/components/ProposalForm.tsx:255-259), so a percentage just typed can miss the
  recompute. That stale closure is not modelled.
- Parsing:
  - `parseFloat` and the text of number inputs are abstracted to `Entry`: blank or a number.
  - `parseInt` of the quantity is abstracted to `Option<int>`.
  - The line editor receives already-parsed numbers (src/components/ProposalLinesTable.tsx:233-297).
- Persistence and the network:
  - The Supabase queries and mutations are left out (src/hooks/useProposalData.ts, src/hooks/useTemplates.ts), as
    are `loadTemplate`'s fetch and `handleSave`'s insert and update.
  - Errors from those calls and navigation are left out.
  - Authentication is left out.
- Rendering, toasts, dialogs, the `saving`/`loading` flags, read-only views and colours are left out.
- Id and date generation (`Date.now()`, `crypto.randomUUID()`, `new Date()`) is left out. Values are passed in as
  parameters.
- The image upload through `FileReader` is left out (src/pages/EditTemplate.tsx:96-105). Only the field update it ends
  in is modelled, as `SetBackgroundImage`.
- Some handlers only set UI state, and the model takes that state as parameters:
  - `handleInputChange` sets one field to the typed value (src/components/CommissionManagement.tsx:95-97).
  - `handleDateSelect` keeps the picked date and writes it into the form as "yyyy-MM-dd" text, or "" when the date
    is cleared (src/components/CommissionManagement.tsx:99-105). Date formatting is a library call. `ProcessPayment`
    receives the resulting text as `paymentDate`.
  - The "record being edited" and "dialog open" state that `resetForm`, `handlePayment` and the proposal and article
    `handleEdit` set is left out. The model passes it in as the `editing` argument. The form values those handlers
    set are modelled as `ResetForm`, `HandlePayment` and `HandleEdit`.
- The proposal dialog's `handleInputChange` is modelled. Outside it, `ProposalFormData.clientName` is taken as given.
- ArticleManagement.HandleEdit: assumes `parseFloat` reads back exactly the number `toString()` wrote, as it does for
  JavaScript numbers.
- The mock tables (won proposals, commercials, available articles) are parameters. Only the seed records that the
  properties mention are modelled.
- TemplatePages.DragEnd: requires indices inside the list. The drag library supplies only such indices. JavaScript's
  clamping of out-of-range `splice` indices is not modelled.
- The client and template management screens, the proposals table and the index page are left out. They are plain CRUD
  and rendering with no derived values.
