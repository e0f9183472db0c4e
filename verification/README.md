# Portfolio quote engine and form logic, in Dafny

This project models the logic of a developer portfolio's interactive sections.

The quote wizard (`QuoteForm`):
- the static catalogs of project types, features and urgency tiers;
- the pricing engine: pre-tax price, VAT and total;
- the four-step state machine and the guards on its buttons;
- the feature toggle;
- the page-break arithmetic of the generated quote document;
- the urgency coefficient label and the download file name;
- the parameters of the quote email, and how the relay's answer becomes the message shown to the user.

The projects section (`ProjectsSection`):
- the category filter;
- the "featured" strip;
- the truncation rules of a project card.

The contact section (`ContactSection`):
- the field update;
- the submit guard;
- the submit cycle.

Modules, one per concern:
- `Wrappers`: `Option` and `Result`.
- `Text`: decimal rendering of naturals and its inverse, `join`, and JavaScript's `\s` whitespace class with the `replace(/\s+/g, …)` rewrite.
- `QuoteData`: catalogs, lookups and the form record.
- `Pricing`, `Wizard`, `PdfExport`, `EmailDispatch`, `Projects` and `ContactForm`.

Money is whole euros. The urgency multipliers 0.9, 1.0 and 1.3 are modelled as the exact rationals 9/10, 1/1 and 13/10. `Math.round` of a non-negative rational is the nearest integer, with half-way cases rounding up.

Behaviours of the code that are easy to misread:
- The quote file name starts with `devis-`.
- The selected features are a list, not a set. Toggling an id that is present removes every copy of it; toggling an absent id appends it.
- The quote's Send button has no in-flight guard. Only the contact form disables its button while submitting.
- The e-mail check on the quote's last step only requires a non-empty value.

## Model

| member | source | states |
|---|---|---|
| QuoteData.FindBy | src/components/QuoteForm.tsx:171-181 | `find` on a catalog by key (project types and features by id, the urgency table by tag): a hit is an entry of the list carrying the requested key; no hit exactly when no entry has that key |
| QuoteData.CatalogIdsUnique | src/components/QuoteForm.tsx:47-148 | no id or urgency key is declared twice in the catalogs |
| QuoteData.FindByUnique | src/components/QuoteForm.tsx:171-177 | in a list with distinct keys, `find` returns the one entry with that key |
| QuoteData.FindByFirst | src/components/QuoteForm.tsx:171-177 | `find` returns the first entry carrying the key |
| QuoteData.UrgencyMultipliersValid | src/components/QuoteForm.tsx:144-148 | every tier's multiplier is a non-zero rational |
| QuoteData.EmptyIdIsNoProject | src/components/QuoteForm.tsx:152-154 | the empty project type of a fresh form names no catalog entry |
| Pricing.RoundHalfUp | src/components/QuoteForm.tsx:183 | `Math.round(p/q)` is the integer within half a unit of p/q, half-way rounding up |
| Pricing.RoundHalfUpUnique | src/components/QuoteForm.tsx:183 | only one integer meets those bounds |
| Pricing.UrgencyMultiplier | src/components/QuoteForm.tsx:181 | the multiplier is positive; an unknown tag gives 1; a known tag gives the table's value, or 1 when that value is 0 |
| Pricing.CatalogUrgencyMultipliers | src/components/QuoteForm.tsx:144-181 | flexible prices at 9/10, standard at 1 and urgent at 13/10; any other tag at 1 |
| Pricing.CalculatePrice | src/components/QuoteForm.tsx:169-184 | the pre-tax price is the integer nearest to (base + features) × multiplier |
| Pricing.CalculatePriceWithTax | src/components/QuoteForm.tsx:186-194 | VAT is the integer nearest to 20% of the rounded pre-tax price; the total is pre-tax price plus VAT |
| Pricing.FeaturesPriceAppend | src/components/QuoteForm.tsx:176-179 | the features fold distributes over concatenation |
| Pricing.BasePrice | src/components/QuoteForm.tsx:170-174 | the base price is the found project's own price, positive exactly for a catalog project id, and 0 for an unset or unknown type |
| Pricing.FeaturePrice | src/components/QuoteForm.tsx:177-178 | a feature id adds the found feature's price, positive exactly for a catalog feature id, and 0 otherwise (`feature?.price || 0`) |
| Pricing.Subtotal | src/components/QuoteForm.tsx:183 | base plus features, the amount the multiplier applies to; CalculatePrice's rounding bounds and FeaturesPriceAppend give its meaning |
| Pricing.FeaturesPrice | src/components/QuoteForm.tsx:176-179 | the left fold of the per-id prices; its partners are FeaturesPriceAppend and FindCatalogFeature |
| Pricing.FeaturesPriceSwap | src/components/QuoteForm.tsx:176-179 | the order of the selected features does not change their total |
| Pricing.FindCatalogFeature | src/components/QuoteForm.tsx:176-179 | a catalog id adds exactly its catalog price |
| Pricing.CatalogProjectPrice | src/components/QuoteForm.tsx:171-174 | a catalog project id resolves to its own entry and base price |
| Pricing.AddFeatureAddsItsPrice | src/components/QuoteForm.tsx:176-179 | appending catalog feature i raises the features amount by its price |
| Pricing.UnknownFeaturesCostNothing | src/components/QuoteForm.tsx:178 | ids outside the catalog add 0 |
| Pricing.UnknownFeatureIgnored | src/components/QuoteForm.tsx:176-194 | inserting an unknown id anywhere leaves the whole breakdown unchanged |
| Pricing.EmptySelectionCostsNothing | src/components/QuoteForm.tsx:169-194 | no known project type and no known feature: 0 / 0 / 0 |
| Pricing.StandardProjectTotal | src/components/QuoteForm.tsx:169-194 | a catalog project alone at standard urgency costs its base price before tax |
| Pricing.WebappUrgentBreakdown | src/components/QuoteForm.tsx:169-194 | web application, urgent, no features: 5850 / 1170 / 7020 |
| Pricing.VitrineAuthFlexibleBreakdown | src/components/QuoteForm.tsx:169-194 | showcase site with authentication, flexible: 1800 / 360 / 2160 |
| Pricing.PriceIgnoresInformationalFields | src/components/QuoteForm.tsx:169-194 | budget, timeline and contact fields do not affect the price |
| Wizard.PrevDisabled | src/components/QuoteForm.tsx:964 | the Previous button is disabled exactly on step 1; ClickPrev states the consequence |
| Wizard.NextDisabled | src/components/QuoteForm.tsx:974-976 | the Next button's expression as written, including its clause for step 4; ForwardControlOf shows that clause never applies |
| Wizard.ExportDisabled | src/components/QuoteForm.tsx:989-997 | the PDF and Send buttons are disabled while the name or email is empty; ForwardControlOf states it |
| Wizard.ForwardControlOf | src/components/QuoteForm.tsx:971-1001 | Next is shown exactly below step 4 and is enabled unless step 1 lacks a project type; on step 4 the export buttons are shown, enabled exactly when name and email are set |
| Wizard.ClickNext | src/components/QuoteForm.tsx:196-200 | Next advances exactly one step exactly when below step 4 and not on step 1 without a project type; the form is untouched |
| Wizard.ClickPrev | src/components/QuoteForm.tsx:202-206 | Previous goes back one step exactly when above step 1; the form is untouched |
| Wizard.NextStep | src/components/QuoteForm.tsx:196-200 | the form is kept; the step stays put exactly on the last step and otherwise moves one forward |
| Wizard.PrevStep | src/components/QuoteForm.tsx:202-206 | the form is kept; the step stays put exactly on the first step and otherwise moves one back |
| Wizard.Without | src/components/QuoteForm.tsx:212 | filtering an id removes it and keeps exactly every other id |
| Wizard.Toggle | src/components/QuoteForm.tsx:208-215 | after a toggle the id is present exactly when it was absent; an absent id is appended; other ids keep their membership |
| Wizard.HandleFeatureToggle | src/components/QuoteForm.tsx:208-215 | only the feature list changes |
| Wizard.WithoutKeepsNoDup | src/components/QuoteForm.tsx:212 | filtering keeps a list free of repetitions |
| Wizard.ToggleKeepsNoDup | src/components/QuoteForm.tsx:208-215 | toggling keeps a list free of repetitions |
| Wizard.WithoutAbsent | src/components/QuoteForm.tsx:212 | filtering an id that is absent changes nothing |
| Wizard.WithoutAppend | src/components/QuoteForm.tsx:212 | filtering distributes over concatenation |
| Wizard.ToggleTwiceAbsent | src/components/QuoteForm.tsx:208-215 | toggling an absent id twice restores the list |
| Wizard.ToggleTwicePresent | src/components/QuoteForm.tsx:208-215 | toggling a present id twice moves it to the end |
| Wizard.SplitAt | src/components/QuoteForm.tsx:208-215 | a repetition-free list splits around one occurrence of an id |
| Wizard.ToggleTwiceKeepsFeaturesPrice | src/components/QuoteForm.tsx:176-179 | toggling an id twice keeps the features amount of a repetition-free list |
| Wizard.ToggleTwiceRestoresPrice | src/components/QuoteForm.tsx:169-215 | toggling a feature twice restores the price breakdown |
| Wizard.Apply | src/components/QuoteForm.tsx:613-890 | navigation keeps the form; edits keep the step |
| Wizard.InitialInvariant | src/components/QuoteForm.tsx:151-164 | the initial state satisfies the wizard invariant |
| Wizard.ApplyKeepsInvariant | src/components/QuoteForm.tsx:196-215 | every well-formed event keeps the invariant: step in 1..4, no repeated features, steps past 1 only with a project type |
| Wizard.RunKeepsInvariant | src/components/QuoteForm.tsx:196-215 | every run of well-formed events keeps the invariant |
| Wizard.RunKeepsStepInRange | src/components/QuoteForm.tsx:196-206 | from any step in 1..4, every run of events stays in 1..4, because only the two buttons move the step and each stops at its end |
| Wizard.StepStaysInRange | src/components/QuoteForm.tsx:196-206 | from the start, any run of events, well-formed or not, keeps the step within 1..4 |
| Wizard.NextOnFirstStep | src/components/QuoteForm.tsx:974-975 | on step 1, Next does nothing without a project type and moves to step 2 with one |
| Wizard.PrevThenNextRestores | src/components/QuoteForm.tsx:196-206 | Previous then Next restores any reachable state past step 1 |
| Wizard.NextThenPrevRestores | src/components/QuoteForm.tsx:196-206 | Next then Previous restores the state whenever Next moved |
| PdfExport.CheckPageBreak | src/components/QuoteForm.tsx:271-279 | a page is added exactly when y + need passes 272, and the cursor then restarts at 40; otherwise y is unchanged; afterwards the section fits unless it is taller than a page's room |
| PdfExport.Exec | src/components/QuoteForm.tsx:271-279 | one layout step adds at most one page, and only a check can add one |
| PdfExport.LayoutAppend | src/components/QuoteForm.tsx:283-456 | laying out two parts is laying out one after the other |
| PdfExport.LayoutPageBounds | src/components/QuoteForm.tsx:271-279 | the page count never drops and grows at most once per check |
| PdfExport.LayoutStaysBelowHeader | src/components/QuoteForm.tsx:271-283 | the cursor never rises above the top of a page's content area |
| PdfExport.Lines | src/components/QuoteForm.tsx:343-351 | n drawn lines of equal height |
| PdfExport.KnownFeatureCount | src/components/QuoteForm.tsx:344-351 | one id counts 1 exactly when it is a catalog id, and never more ids than listed |
| PdfExport.KnownFeatureCountAppend | src/components/QuoteForm.tsx:344-351 | the count adds up over a concatenation, so every id is counted on its own |
| PdfExport.KnownFeatureCountAll | src/components/QuoteForm.tsx:343-351 | when every id is a catalog id, every id is drawn |
| PdfExport.QuoteLayoutReserves | src/components/QuoteForm.tsx:311-447 | the document checks for a page break at most six times |
| PdfExport.QuoteLayout | src/components/QuoteForm.tsx:283-460 | the cursor steps of `generatePDF`: client, project, features, urgency, budget and timeline, financial summary, message, in that order |
| PdfExport.PageCount | src/components/QuoteForm.tsx:283-456 | the document has between 1 and 7 pages |
| PdfExport.MinimalQuoteFitsOnePage | src/components/QuoteForm.tsx:283-456 | a quote with only the mandatory blocks fits on one page |
| PdfExport.FullQuoteTakesTwoPages | src/components/QuoteForm.tsx:283-456 | a fully filled-in quote always moves the financial summary to page 2 |
| PdfExport.CoefficientLabel | src/components/QuoteForm.tsx:366-372 | no label for a multiplier of 1; otherwise a sign, then digits without a leading zero whose value is the distance from 1 in percent, rounded, then `%` |
| PdfExport.CatalogCoefficientLabels | src/components/QuoteForm.tsx:366-372 | the catalog's labels are -10%, none and +30% |
| PdfExport.QuoteFilename | src/components/QuoteForm.tsx:464 | the name is `devis-`, then the client name with its whitespace runs rewritten, then `-`, then the decimal rendering of the timestamp, then `.pdf`; it contains no whitespace |
| PdfExport.FilenameKeepsPlainName | src/components/QuoteForm.tsx:464 | a client name without whitespace appears unchanged in the file name |
| PdfExport.FilenameJoinsWords | src/components/QuoteForm.tsx:464 | two words separated by any whitespace run appear in the file name joined by a single `-` |
| PdfExport.GeneratePdf | src/components/QuoteForm.tsx:217-471 | both delivery paths produce the quote layout's page count (1 to 7) and the quote file name of the client name and timestamp; the flag chooses download or in-memory |
| Text.NatToString | src/components/QuoteForm.tsx:464 | decimal rendering: at least one digit, no leading zero |
| Text.NatToStringRoundTrip | src/components/QuoteForm.tsx:464 | reading the rendered digits back gives the number |
| Text.NatToStringInjective | src/components/QuoteForm.tsx:464 | distinct numbers render differently |
| Text.CanonicalDigitsAreRendering | src/components/QuoteForm.tsx:464 | a digit string without a leading zero is the rendering of its own value, so `${n}` is the only such text for n |
| Text.Join | src/components/QuoteForm.tsx:534-535 | no elements join to the empty string and one element to itself; a join starts with the first element and ends with the last |
| Text.JoinSnoc | src/components/QuoteForm.tsx:534-535 | one more element adds the separator and that element at the end; with the two base cases this determines `join` completely |
| Text.JoinLastChar | src/components/QuoteForm.tsx:534-535 | a join ends with the last character of its last element |
| Text.IsJsWhitespace | src/components/QuoteForm.tsx:464 | the ECMAScript `\s` class: the Unicode space separators, the line terminators, tab, vertical tab, form feed and the BOM; the ReplaceWhitespaceRuns lemmas rest on it |
| Text.ReplaceWhitespaceRunsRemovesWhitespace | src/components/QuoteForm.tsx:464 | with a non-whitespace replacement, no whitespace is left |
| Text.ReplaceWhitespaceRunsIdentity | src/components/QuoteForm.tsx:464 | a string without whitespace is left unchanged |
| Text.ReplaceWhitespaceRunsKeepsContent | src/components/QuoteForm.tsx:464 | the non-whitespace characters survive the rewrite, in order |
| Text.ReplaceWhitespaceRuns | src/components/QuoteForm.tsx:464 | the rewrite never makes the string longer |
| Text.ReplaceWhitespaceRunsAppend | src/components/QuoteForm.tsx:464 | cut after a non-whitespace character, the two parts are rewritten independently |
| Text.ReplaceWhitespaceRunsOneRun | src/components/QuoteForm.tsx:464 | a whitespace run of any length between two parts becomes exactly one replacement character |
| EmailDispatch.FeatureLabel | src/components/QuoteForm.tsx:521 | a label is the feature name, then ` (+`, then the decimal rendering of the price (digits without a leading zero that read back as it), then `€)` |
| EmailDispatch.LabelFor | src/components/QuoteForm.tsx:519-522 | an id has a label exactly when it is a catalog id, and the label ends with `)` |
| EmailDispatch.SelectedFeatureLabels | src/components/QuoteForm.tsx:519-522 | at most one label per id, each ending with `)` |
| EmailDispatch.SelectedFeatureLabelsSingle | src/components/QuoteForm.tsx:519-522 | one id gives its catalog feature's label, or nothing when it is not a catalog id |
| EmailDispatch.SelectedFeatureLabelsAppend | src/components/QuoteForm.tsx:519-522 | the labels of a concatenation are the labels of each part in order, so every id contributes in list order |
| EmailDispatch.SelectedFeatureLabelsEmpty | src/components/QuoteForm.tsx:519-522 | there is no label exactly when no id is a catalog id |
| EmailDispatch.LabelsAreNotPlaceholder | src/components/QuoteForm.tsx:534 | a non-empty join can never equal the placeholder |
| EmailDispatch.FeaturesList | src/components/QuoteForm.tsx:534 | the placeholder is used exactly when no catalog feature is selected; otherwise the labels joined by ", " |
| EmailDispatch.UrgencyInfo | src/components/QuoteForm.tsx:524-525 | empty exactly for the standard tier; a non-standard tag outside the table throws |
| EmailDispatch.UrgencyInfoOfTier | src/components/QuoteForm.tsx:524-525 | a known tier other than standard is announced as `Délais <tag> (<tier name>)` |
| EmailDispatch.CatalogUrgencyInfo | src/components/QuoteForm.tsx:524-525 | the texts sent for the catalog: `Délais flexible (Flexible (2-3 mois))`, nothing for standard, `Délais urgent (Urgent (2-3 semaines))` |
| EmailDispatch.BuildTemplateParams | src/components/QuoteForm.tsx:506-543 | parameters build exactly when the urgency is standard or known; they carry the contact fields, the found project's name, description and base price (empty or 0 without one), the breakdown, `features_list` as the joined labels or the placeholder, the urgency text, and the message fallback |
| EmailDispatch.SendEmailWithPdf | src/components/QuoteForm.tsx:503-564 | resolves exactly when parameters build and the reply has status 200 or text "OK"; otherwise it throws an `EmailJS erreur: <status>` error whose tail is the decimal rendering of the status |
| EmailDispatch.HandleSubmit | src/components/QuoteForm.tsx:566-594 | success reports the client's email and the total with tax; a failure shows details exactly when an `Error` was thrown, and the details are that error's message |
| EmailDispatch.StandardUrgencyAlwaysBuilds | src/components/QuoteForm.tsx:524-525 | the standard tier always builds, without urgency text |
| EmailDispatch.AcceptedReplies | src/components/QuoteForm.tsx:555-556 | status 200 or text "OK" alone each suffice |
| EmailDispatch.IsAccepted | src/components/QuoteForm.tsx:555 | the success test: status 200 or text "OK" |
| EmailDispatch.RefusedReplyReportsStatus | src/components/QuoteForm.tsx:555-559 | any other reply is reported with its status in the details |
| Projects.InCategory | src/components/ProjectsSection.tsx:99 | every kept project has the category |
| Projects.InCategoryMembers | src/components/ProjectsSection.tsx:99 | a project is kept exactly when it is in the list and has the category |
| Projects.InCategoryAppend | src/components/ProjectsSection.tsx:99 | the filter distributes over concatenation, so order is kept |
| Projects.InCategoryIdempotent | src/components/ProjectsSection.tsx:99 | filtering twice equals filtering once |
| Projects.FeaturedIn | src/components/ProjectsSection.tsx:101 | every kept project is featured |
| Projects.FeaturedInMembers | src/components/ProjectsSection.tsx:101 | a project is kept exactly when it is in the list and is featured |
| Projects.FeaturedInAppend | src/components/ProjectsSection.tsx:101 | the featured filter distributes over concatenation |
| Projects.Filtered | src/components/ProjectsSection.tsx:97-99 | under "Tous" every project in catalog order; otherwise the catalog filtered to that category, so exactly its projects, in catalog order |
| Projects.ShownFeatured | src/components/ProjectsSection.tsx:145 | at most two featured projects, a prefix of the featured list, all of it when it is shorter |
| Projects.FirstTwoFeaturedShown | src/components/ProjectsSection.tsx:145 | when the first two projects of a list are featured, the strip is exactly those two, whatever follows |
| Projects.ShownFeaturedIsFirstTwo | src/components/ProjectsSection.tsx:12-101 | the strip shows projects 1 and 2 |
| Projects.TagBadges | src/components/ProjectsSection.tsx:303-312 | the first three tags and a `+(n-3)` badge exactly when n > 3; all n tags and no badge otherwise |
| Projects.TagBadgesAccountForEveryTag | src/components/ProjectsSection.tsx:303-312 | every tag is shown or counted on the badge |
| Projects.DescriptionPreview | src/components/ProjectsSection.tsx:298 | the first 100 characters, followed by `...` |
| Projects.ShortDescriptionShownWhole | src/components/ProjectsSection.tsx:298 | a description of at most 100 characters is shown whole |
| Projects.SecondProjectOnlyUnderAll | src/components/ProjectsSection.tsx:10-99 | of the filter buttons, only "Tous" shows project 2, whose category has no button |
| Projects.OtherProjectsHaveAButton | src/components/ProjectsSection.tsx:10-99 | every other project appears under its own category's button |
| Projects.InCategorySingle | src/components/ProjectsSection.tsx:99 | a category held by one project filters down to it |
| Projects.NoneInCategory | src/components/ProjectsSection.tsx:99 | a category held by no project filters to nothing |
| Projects.EachCategoryListsOne | src/components/ProjectsSection.tsx:10-99 | each button other than "Tous" lists exactly one project |
| ContactForm.Value | src/components/ContactSection.tsx:44-49 | the four fields always have a value; other keys exist only once set |
| ContactForm.HandleChange | src/components/ContactSection.tsx:68-73 | the named key takes the value; every other key keeps its value |
| ContactForm.BeginSubmit | src/components/ContactSection.tsx:52-54 | a submit marks the form busy, which disables the button, and leaves the fields alone |
| ContactForm.SubmitDisabled | src/components/ContactSection.tsx:272 | the button is disabled while submitting or while name, email or message is empty; see the lemmas below |
| ContactForm.EndSubmit | src/components/ContactSection.tsx:63-65 | completion clears every field and makes the form idle |
| ContactForm.Step | src/components/ContactSection.tsx:52-73 | a change sets its key and keeps the busy flag; a submit press does nothing exactly when the button is disabled, and otherwise marks the form busy; a completion resets a busy form and leaves an idle one alone |
| ContactForm.Run | src/components/ContactSection.tsx:52-73 | the events applied in order: none leaves the state, one is one Step |
| ContactForm.RunAppend | src/components/ContactSection.tsx:52-73 | running two batches is running the first, then the second |
| ContactForm.SubmittingHasCause | src/components/ContactSection.tsx:52-54 | a form that starts idle becomes busy only through a submit press that found name, email and message filled in and no submit running |
| ContactForm.DisabledSubmitDoesNothing | src/components/ContactSection.tsx:272 | a press of the disabled button changes nothing |
| ContactForm.IdleCompleteDoesNothing | src/components/ContactSection.tsx:63-65 | without a submit in progress, there is nothing to complete |
| ContactForm.InitialSubmitDisabled | src/components/ContactSection.tsx:44-50 | the fresh form is idle and its button disabled |
| ContactForm.RequiredFieldsEnableSubmit | src/components/ContactSection.tsx:272 | an idle form with name, email and message filled in can be submitted, whatever the subject |
| ContactForm.ClearingRequiredFieldDisablesSubmit | src/components/ContactSection.tsx:272 | emptying a required field disables the button |
| ContactForm.ChangeBackRestores | src/components/ContactSection.tsx:68-73 | writing a field's previous value back restores the state |
| ContactForm.ChangesCommute | src/components/ContactSection.tsx:68-73 | changes to different keys commute |
| ContactForm.SubmitCycleResets | src/components/ContactSection.tsx:52-66 | a submit from an enabled button, then any edits and button presses, then the completion, ends in the initial state |
| ContactForm.CompleteLastResets | src/components/ContactSection.tsx:63-65 | from a submit in progress, a run whose only completion is its last event ends in the initial state |
| ContactForm.EditsKeepSubmitting | src/components/ContactSection.tsx:68-73 | edits during a submit do not end it |

## Left out

- Rendering, animation, icons, the progress bar and the review step's display of percentages: these are presentation, not logic.
- The drawing calls of the PDF library (fonts, colours, lines, header and footer). Only the vertical cursor and the page counter are modelled. The number of lines the library wraps the timeline note into is an input. The code does not move the cursor after drawing the wrapped client message, and neither does the model.
- The e-mail relay service, `emailjs.init`, and the `testSimpleEmail` helper. The relay's answer is an input to `SendEmailWithPdf`.
- `Date.now()`, `alert`, `console` and the browser download: the timestamp is a parameter, and the alert is reduced to the report it shows.
- The exact wording of the failure alert's fixed lines. Only whether it includes the error's details is modelled.
- IEEE-754 floating point: prices and multipliers are exact rationals. The catalog values give the same rounded results either way.
- Lookups by keys inherited from `Object.prototype` (such as `toString`) in the urgency table are treated as unknown keys.
- React's batching of state updates. Each field change is applied on its own, in order.
- The contact form's one-second pause: a submit is modelled as a begin step followed by a completion step.
- The browser's constraint validation on the contact form (`required`, `type="email"`). The model does not reject a badly formed address; the disabled button already covers the empty required fields.
- `Projects.DescriptionPreview`: JavaScript slices by UTF-16 code units, and the model slices by characters. They agree on every catalog description, since all are in the Basic Multilingual Plane.
- The typing animation and the other sections of the site.
