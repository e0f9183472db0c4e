/** Sending the quote by email (`sendEmailWithPDF` and the `handleSubmit` that
    calls it): the flat template parameters built from the form, the test that
    decides whether the mail relay accepted the message, and the outcome shown
    to the user.

    The relay call itself is not modelled: its answer is an input, either a
    reply carrying a status and a text, or a rejection. */
module EmailDispatch {
  import opened Wrappers
  import opened Text
  import opened QuoteData
  import opened Pricing

  /** `features_list` when no catalog feature is selected. */
  const NoFeaturesText: string := "Aucune fonctionnalité supplémentaire"

  /** `client_message` when the client left no message. */
  const NoMessageText: string := "Aucun message spécifique"

  /** The `TypeError` message a JavaScript engine (V8) gives when the urgency
      table has no entry for the form's tag and its `name` is read. */
  const MissingUrgencyError: string := "Cannot read properties of undefined (reading 'name')"

  /** Whether a string is non-empty and ends with a closing bracket. */
  predicate ClosesBracket(s: string) {
    |s| > 0 && s[|s| - 1] == ')'
  }

  /** `${name} (+${price}€)`: the name, then ` (+`, then the decimal digits of
      the price, then `€)`. */
  function FeatureLabel(f: Feature): (r: string)
    ensures |r| >= |f.name| + 6 && r[..|f.name|] == f.name
    ensures r[|f.name|..|f.name| + 3] == " (+" && r[|r| - 2..] == "€)"
    ensures IsDigits(r[|f.name| + 3..|r| - 2]) && DigitsValue(r[|f.name| + 3..|r| - 2]) == f.price
    ensures r[|f.name| + 3..|r| - 2] == NatToString(f.price)
    ensures ClosesBracket(r)
  {
    var digits := NatToString(f.price);
    NatToStringRoundTrip(f.price);
    LabelShape(f.name, digits);
    f.name + " (+" + digits + "€)"
  }

  /** How a label splits back into its name, its price digits and the fixed text around them. */
  lemma LabelShape(name: string, digits: string)
    requires |digits| >= 1
    ensures var r := name + " (+" + digits + "€)";
      && |r| >= |name| + 6 && r[..|name|] == name
      && r[|name|..|name| + 3] == " (+" && r[|r| - 2..] == "€)"
      && r[|name| + 3..|r| - 2] == digits
      && ClosesBracket(r)
  {
    var head := name + " (+";
    var r := head + digits + "€)";
    assert r[..|name|] == head[..|name|] == name;
    assert r[|name|..|name| + 3] == head[|name|..] == " (+";
    assert r[|r| - 2..] == "€)";
    assert r[|name| + 3..|r| - 2] == digits;
  }

  /** `features.map(...).filter(Boolean)`: one label per catalog id, in list
      order; an id outside the catalog maps to '' and is dropped. */
  function SelectedFeatureLabels(ids: seq<string>): (r: seq<string>)
    ensures |r| <= |ids|
    ensures forall k :: 0 <= k < |r| ==> ClosesBracket(r[k])
  {
    if ids == [] then []
    else
      var rest := SelectedFeatureLabels(ids[1..]);
      match LabelFor(ids[0])
      case None => rest
      case Some(entry) => [entry] + rest
  }

  /** The label of one id: the catalog feature's label, or nothing for an id
      outside the catalog. */
  function LabelFor(id: string): (r: Option<string>)
    ensures r.Some? <==> FindFeature(id).Some?
    ensures r.Some? ==> ClosesBracket(r.value)
  {
    match FindFeature(id)
    case None => None
    case Some(feature) => Some(FeatureLabel(feature))
  }

  /** One id gives the catalog feature's label, or nothing outside the catalog. */
  lemma SelectedFeatureLabelsSingle(id: string)
    ensures SelectedFeatureLabels([id])
         == (if IsFeatureId(id) then [FeatureLabel(FindFeature(id).value)] else [])
  {
    FindFeatureIffFeatureId(id);
    assert [id][1..] == [];
  }

  /** The labels of two lists of ids, one after the other, are the labels of their
      concatenation: every id contributes in list order. */
  lemma {:induction false} SelectedFeatureLabelsAppend(a: seq<string>, b: seq<string>)
    ensures SelectedFeatureLabels(a + b) == SelectedFeatureLabels(a) + SelectedFeatureLabels(b)
    decreases |a|
  {
    if a == [] {
      assert a + b == b;
    } else {
      var ab := a + b;
      assert ab[0] == a[0];
      assert ab[1..] == a[1..] + b;
      SelectedFeatureLabelsAppend(a[1..], b);
      var rest, tail := SelectedFeatureLabels(a[1..]), SelectedFeatureLabels(b);
      match LabelFor(a[0])
      case None =>
      case Some(entry) =>
        assert SelectedFeatureLabels(ab) == [entry] + (rest + tail);
        assert [entry] + (rest + tail) == [entry] + rest + tail;
    }
  }

  /** An id names a catalog feature exactly when the catalog lookup finds it. */
  lemma FindFeatureIffFeatureId(id: string)
    ensures FindFeature(id).Some? <==> IsFeatureId(id)
  {
  }

  /** The label list is empty exactly when no id in the list is a catalog id. */
  lemma {:induction false} SelectedFeatureLabelsEmpty(ids: seq<string>)
    ensures SelectedFeatureLabels(ids) == [] <==> forall k :: 0 <= k < |ids| ==> !IsFeatureId(ids[k])
  {
    if ids != [] {
      SelectedFeatureLabelsEmpty(ids[1..]);
      FindFeatureIffFeatureId(ids[0]);
      assert forall k :: 1 <= k < |ids| ==> ids[k] == ids[1..][k - 1];
    }
  }

  /** `features_list`: the labels joined by ", ", or the placeholder when there is
      none. The placeholder appears exactly when no catalog feature is selected. */
  function FeaturesList(ids: seq<string>): (r: string)
    ensures r == NoFeaturesText <==> forall k :: 0 <= k < |ids| ==> !IsFeatureId(ids[k])
    ensures r != NoFeaturesText ==> r == Join(", ", SelectedFeatureLabels(ids))
  {
    var labels := SelectedFeatureLabels(ids);
    SelectedFeatureLabelsEmpty(ids);
    LabelsAreNotPlaceholder(labels);
    if labels == [] then NoFeaturesText else Join(", ", labels)
  }

  /** Joined labels end in ')' and the placeholder in 'e', so a non-empty join is
      never mistaken for the placeholder. */
  lemma LabelsAreNotPlaceholder(labels: seq<string>)
    requires forall k :: 0 <= k < |labels| ==> ClosesBracket(labels[k])
    ensures labels != [] ==> Join(", ", labels) != NoFeaturesText
  {
    if labels != [] {
      JoinKeepsClosingBracket(labels);
      PlaceholderDoesNotCloseBracket();
    }
  }

  /** A join ends like its last element. */
  lemma JoinKeepsClosingBracket(labels: seq<string>)
    requires labels != [] && ClosesBracket(labels[|labels| - 1])
    ensures ClosesBracket(Join(", ", labels))
  {
    JoinLastChar(", ", labels);
  }

  lemma PlaceholderDoesNotCloseBracket()
    ensures !ClosesBracket(NoFeaturesText)
  {
    assert NoFeaturesText[|NoFeaturesText| - 1] == 'e';
  }

  /** `urgency_info`: empty for the standard tier, `Délais <tag> (<tier name>)`
      otherwise. A non-standard tag outside the table makes the lookup throw. */
  function UrgencyInfo(key: string): (r: Result<string, string>)
    ensures r.Success? <==> key == "standard" || FindUrgency(key).Some?
    ensures r.Success? ==> (r.value == "" <==> key == "standard")
    ensures r.Failure? ==> r.error == MissingUrgencyError
  {
    if key == "standard" then Success("")
    else match FindUrgency(key)
      case Some(t) => Success("Délais " + key + " (" + t.name + ")")
      case None => Failure(MissingUrgencyError)
  }

  /** A known tier other than standard is announced by its tag and its name. */
  lemma UrgencyInfoOfTier(i: nat)
    requires i < |UrgencyTiers| && UrgencyTiers[i].key != "standard"
    ensures UrgencyInfo(UrgencyTiers[i].key)
         == Success("Délais " + UrgencyTiers[i].key + " (" + UrgencyTiers[i].name + ")")
  {
    CatalogIdsUnique();
    FindByUnique(UrgencyTiers, TierKey, i);
  }

  /** The urgency texts of the catalog's tiers, as they reach the template:
      `Délais flexible (Flexible (2-3 mois))`, nothing for standard, and
      `Délais urgent (Urgent (2-3 semaines))`. */
  lemma CatalogUrgencyInfo()
    ensures UrgencyInfo("flexible") == Success("Délais " + "flexible" + " (" + "Flexible (2-3 mois)" + ")")
    ensures UrgencyInfo("standard") == Success("")
    ensures UrgencyInfo("urgent") == Success("Délais " + "urgent" + " (" + "Urgent (2-3 semaines)" + ")")
  {
    UrgencyInfoOfTier(0);
    UrgencyInfoOfTier(2);
  }

  /** The flat parameter set handed to the mail relay's template. */
  datatype TemplateParams = TemplateParams(
    email: string,
    clientName: string,
    clientCompany: string,
    projectType: string,
    projectDescription: string,
    basePrice: nat,
    featuresList: string,
    urgencyInfo: string,
    priceHt: nat,
    tvaAmount: nat,
    totalPrice: nat,
    clientMessage: string,
    timeline: string,
    budget: string)

  /** The template parameters of `sendEmailWithPDF`, or the exception building them throws. */
  function BuildTemplateParams(f: FormData): (r: Result<TemplateParams, string>)
    ensures r.Success? <==> f.urgency == "standard" || FindUrgency(f.urgency).Some?
    ensures r.Failure? ==> r.error == MissingUrgencyError
    ensures r.Success? ==>
      && r.value.email == f.contact.email && r.value.clientName == f.contact.name
      && r.value.clientCompany == f.contact.company
      && r.value.timeline == f.timeline && r.value.budget == f.budget
    ensures r.Success? ==> r.value.basePrice == BasePrice(f.projectType)
    ensures r.Success? ==> (r.value.projectType == "" <==> FindProject(f.projectType).None? || FindProject(f.projectType).value.name == "")
    ensures r.Success? && FindProject(f.projectType).Some? ==>
      && r.value.projectType == FindProject(f.projectType).value.name
      && r.value.projectDescription == FindProject(f.projectType).value.description
    ensures r.Success? && FindProject(f.projectType).None? ==>
      r.value.projectType == "" && r.value.projectDescription == ""
    ensures r.Success? ==> r.value.featuresList == FeaturesList(f.features)
    ensures r.Success? ==> r.value.urgencyInfo == UrgencyInfo(f.urgency).value
    ensures r.Success? ==>
      var b := CalculatePriceWithTax(f);
      r.value.priceHt == b.priceHT && r.value.tvaAmount == b.tva && r.value.totalPrice == b.priceTTC
      && r.value.totalPrice == r.value.priceHt + r.value.tvaAmount
    ensures r.Success? ==> (r.value.featuresList == NoFeaturesText <==> forall k :: 0 <= k < |f.features| ==> !IsFeatureId(f.features[k]))
    ensures r.Success? ==> (r.value.urgencyInfo == "" <==> f.urgency == "standard")
    ensures r.Success? ==> r.value.clientMessage == (if f.contact.message == "" then NoMessageText else f.contact.message)
  {
    var b := CalculatePriceWithTax(f);
    var project := FindProject(f.projectType);
    match UrgencyInfo(f.urgency)
    case Failure(e) => Failure(e)
    case Success(info) =>
      Success(TemplateParams(
        f.contact.email,
        f.contact.name,
        f.contact.company,
        if project.Some? then project.value.name else "",
        if project.Some? then project.value.description else "",
        if project.Some? then project.value.basePrice else 0,
        FeaturesList(f.features),
        info,
        b.priceHT,
        b.tva,
        b.priceTTC,
        if f.contact.message == "" then NoMessageText else f.contact.message,
        f.timeline,
        f.budget))
  }

  /** What a rejected promise or a `throw` carries: an `Error` object with its
      message, or any other value (the relay library rejects with a plain
      status object). */
  datatype Thrown = ErrorObject(message: string) | OtherValue

  /** The relay's answer to one send. */
  datatype Response = Reply(status: nat, text: string) | Rejected(reason: Thrown)

  /** The success test applied to a reply. */
  predicate IsAccepted(status: nat, text: string) {
    status == 200 || text == "OK"
  }

  /** The prefix of the error thrown for a reply that is not accepted. */
  const StatusErrorPrefix: string := "EmailJS erreur: "

  /** `sendEmailWithPDF`: it resolves only when the parameters could be built and
      the relay replied with status 200 or text "OK". A reply that is not
      accepted becomes an `Error` whose message ends with the reply's status. */
  function SendEmailWithPdf(f: FormData, response: Response): (r: Result<TemplateParams, Thrown>)
    ensures r.Success? <==> BuildTemplateParams(f).Success? && response.Reply? && IsAccepted(response.status, response.text)
    ensures r.Success? ==> r.value == BuildTemplateParams(f).value
    ensures BuildTemplateParams(f).Failure? ==> r == Failure(ErrorObject(MissingUrgencyError))
    ensures BuildTemplateParams(f).Success? && response.Rejected? ==> r == Failure(response.reason)
    ensures BuildTemplateParams(f).Success? && response.Reply? && !IsAccepted(response.status, response.text) ==>
      && r.Failure? && r.error.ErrorObject?
      && |r.error.message| > |StatusErrorPrefix|
      && r.error.message[..|StatusErrorPrefix|] == StatusErrorPrefix
      && IsDigits(r.error.message[|StatusErrorPrefix|..])
      && DigitsValue(r.error.message[|StatusErrorPrefix|..]) == response.status
      && r.error.message[|StatusErrorPrefix|..] == NatToString(response.status)
  {
    match BuildTemplateParams(f)
    case Failure(e) => Failure(ErrorObject(e))
    case Success(params) =>
      match response
      case Rejected(reason) => Failure(reason)
      case Reply(status, text) =>
        if IsAccepted(status, text) then Success(params)
        else
          var message := StatusErrorPrefix + NatToString(status);
          NatToStringRoundTrip(status);
          assert message[|StatusErrorPrefix|..] == NatToString(status);
          Failure(ErrorObject(message))
  }

  /** What `handleSubmit` tells the user: the quote went out to the client's
      address for the total with tax, or it did not, with the error's message
      as details when the thrown value is an `Error`. */
  datatype SubmitReport = Sent(recipient: string, totalWithTax: nat) | NotSent(details: Option<string>)

  function HandleSubmit(f: FormData, response: Response): (r: SubmitReport)
    ensures r.Sent? <==> SendEmailWithPdf(f, response).Success?
    ensures r.Sent? ==> r.recipient == f.contact.email && r.totalWithTax == CalculatePriceWithTax(f).priceTTC
    ensures r.NotSent? ==> (r.details.Some? <==> SendEmailWithPdf(f, response).error.ErrorObject?)
    ensures r.NotSent? && SendEmailWithPdf(f, response).error.ErrorObject? ==>
      r.details == Some(SendEmailWithPdf(f, response).error.message)
    ensures BuildTemplateParams(f).Success? && response == Rejected(OtherValue) ==> r == NotSent(None)
  {
    match SendEmailWithPdf(f, response)
    case Success(_) => Sent(f.contact.email, CalculatePriceWithTax(f).priceTTC)
    case Failure(ErrorObject(message)) => NotSent(Some(message))
    case Failure(OtherValue) => NotSent(None)
  }

  /** The standard tier always builds, for any form, and announces no urgency. */
  lemma StandardUrgencyAlwaysBuilds(f: FormData)
    requires f.urgency == "standard"
    ensures BuildTemplateParams(f).Success?
    ensures BuildTemplateParams(f).value.urgencyInfo == ""
  {
  }

  /** A relay reply of status 200 is a success whatever its text, and a reply with
      text "OK" is a success whatever its status. */
  lemma AcceptedReplies(f: FormData, status: nat, text: string)
    requires f.urgency == "standard"
    ensures HandleSubmit(f, Reply(200, text)).Sent?
    ensures HandleSubmit(f, Reply(status, "OK")).Sent?
  {
  }

  /** Every reply other than status 200 or text "OK" is reported as a failure with
      details naming the status. */
  lemma RefusedReplyReportsStatus(f: FormData, status: nat, text: string)
    requires f.urgency == "standard"
    requires status != 200 && text != "OK"
    ensures HandleSubmit(f, Reply(status, text)) == NotSent(Some(StatusErrorPrefix + NatToString(status)))
  {
  }
}
