/** The online services of app/dashboard/e-services/page.tsx: which service
    panel is open, and the certificate request form with its price tables,
    price total and submit guard. */
module EServices {
  import opened Options

  // ---------------------------------------------------------------------------
  // Service selection

  /** The three service cards' ids. */
  const PaymentId: string := "payment"
  const ProjectId: string := "project"
  const CertificateId: string := "certificate"

  function ServiceIds(): seq<string> {
    [PaymentId, ProjectId, CertificateId]
  }

  datatype Panel = PaymentPanel | ProjectPanel | CertificatePanel

  /** The panel rendered for `activeService` (`null` at first): one
      conditional per id, none for an unknown id or no selection. */
  function ShownPanel(activeService: Option<string>): (p: Option<Panel>)
    ensures p.Some? ==> activeService.Some? && activeService.value in ServiceIds()
    ensures activeService.Some? && activeService.value in ServiceIds() ==> p.Some?
  {
    match activeService
    case None => None
    case Some(id) =>
      if id == PaymentId then Some(PaymentPanel)
      else if id == ProjectId then Some(ProjectPanel)
      else if id == CertificateId then Some(CertificatePanel)
      else None
  }

  /** A card's button: "Service actif" on the selected card. */
  predicate IsActiveCard(activeService: Option<string>, id: string) {
    activeService == Some(id)
  }

  /** Clicking a card's button selects that card's service: its panel is the
      one shown, its button is the only active one, and the panels of the
      three ids are pairwise different. */
  lemma SelectServiceShowsItsPanel(id: string)
    requires id in ServiceIds()
    ensures var active := Some(id);
            && ShownPanel(active).Some?
            && (forall other :: other in ServiceIds() && IsActiveCard(active, other) ==> other == id)
            && (forall other :: other in ServiceIds() && other != id ==> ShownPanel(Some(other)) != ShownPanel(active))
  {
  }

  // ---------------------------------------------------------------------------
  // Certificate request

  /** An entry of `certificateTypes` or `deliveryMethods`; `text` holds the
      entry's `label` (a reserved word in Dafny). */
  datatype PricedOption = PricedOption(value: string, text: string, price: int)

  function CertificateTypes(): seq<PricedOption> {
    [ PricedOption("registration", "Attestation d'inscription", 50),
      PricedOption("competition", "Attestation pour concours", 100),
      PricedOption("consultation", "Attestation pour consultation", 75) ]
  }

  function DeliveryMethods(): seq<PricedOption> {
    [ PricedOption("pickup", "Retrait au bureau", 0),
      PricedOption("email", "Envoi par email", 0),
      PricedOption("postal", "Envoi postal", 25) ]
  }

  /** The surcharge of the urgent checkbox. */
  const UrgentSurcharge: int := 50

  /** `options.find(o => o.value === value)`: the first entry with that value. */
  function Find(options: seq<PricedOption>, value: string): (r: Option<PricedOption>)
    ensures r.Some? ==> r.value in options && r.value.value == value
    ensures r.None? <==> forall k :: 0 <= k < |options| ==> options[k].value != value
  {
    if |options| == 0 then None
    else if options[0].value == value then Some(options[0])
    else
      assert forall k :: 1 <= k < |options| ==> options[k] == options[1..][k - 1];
      Find(options[1..], value)
  }

  /** Every entry of each table has its own value, so `find` picks the one
      entry carrying the selected value. */
  lemma TablesHaveDistinctValues()
    ensures forall i, j :: 0 <= i < j < |CertificateTypes()| ==> CertificateTypes()[i].value != CertificateTypes()[j].value
    ensures forall i, j :: 0 <= i < j < |DeliveryMethods()| ==> DeliveryMethods()[i].value != DeliveryMethods()[j].value
  {
  }

  /** `selected?.price || 0`. */
  function PriceOrZero(selected: Option<PricedOption>): int {
    if selected.Some? then selected.value.price else 0
  }

  /** The form's state; it is replaced whole on every change. */
  datatype CertificateForm = CertificateForm(certType: string, reason: string, urgent: bool, delivery: string)

  function InitialCertificateForm(): CertificateForm {
    CertificateForm("", "", false, "")
  }

  /** `totalPrice`. */
  function TotalPrice(form: CertificateForm): int {
    PriceOrZero(Find(CertificateTypes(), form.certType))
      + PriceOrZero(Find(DeliveryMethods(), form.delivery))
      + (if form.urgent then UrgentSurcharge else 0)
  }

  /** The price table written out: 50, 100 or 75 for the three certificate
      types and 0 for none, 25 for postal delivery and 0 otherwise, plus 50
      when urgent. */
  function ListedPrice(form: CertificateForm): int {
    (if form.certType == "registration" then 50
     else if form.certType == "competition" then 100
     else if form.certType == "consultation" then 75
     else 0)
    + (if form.delivery == "postal" then 25 else 0)
    + (if form.urgent then 50 else 0)
  }

  /** The total agrees with the table on every form, and so lies in
      [0, 175]; the empty form costs nothing and the dearest request
      (competition, postal, urgent) costs 175. */
  lemma TotalPriceSpec(form: CertificateForm)
    ensures TotalPrice(form) == ListedPrice(form)
    ensures 0 <= TotalPrice(form) <= 175
    ensures TotalPrice(InitialCertificateForm()) == 0
    ensures TotalPrice(CertificateForm("competition", form.reason, true, "postal")) == 175
  {
    var types, methods := CertificateTypes(), DeliveryMethods();
    assert types[0].value == "registration" && types[1].value == "competition" && types[2].value == "consultation";
    assert methods[0].value == "pickup" && methods[1].value == "email" && methods[2].value == "postal";
  }

  /** Ticking or unticking "urgent" moves the total by exactly 50 and changes
      no other field. */
  lemma UrgentToggle(form: CertificateForm)
    ensures var toggled := form.(urgent := !form.urgent);
            && TotalPrice(toggled) - TotalPrice(form) == (if form.urgent then -UrgentSurcharge else UrgentSurcharge)
            && toggled.certType == form.certType && toggled.reason == form.reason && toggled.delivery == form.delivery
  {
  }

  /** The submit button's enabled state: `!formData.type || !formData.delivery`
      disables it. */
  predicate SubmitEnabled(form: CertificateForm) {
    form.certType != "" && form.delivery != ""
  }

  /** The "Traitement urgent" line of the breakdown. */
  predicate ShowsUrgentLine(form: CertificateForm) {
    form.urgent
  }

  /** Values from the two selects are table values or still empty; for such
      forms, submitting is possible exactly when both a certificate type and a
      delivery method have been found in their tables, and the urgent line
      shows exactly when the surcharge is in the total. */
  lemma SubmitNeedsBothSelections(form: CertificateForm)
    requires form.certType == "" || exists k :: 0 <= k < |CertificateTypes()| && CertificateTypes()[k].value == form.certType
    requires form.delivery == "" || exists k :: 0 <= k < |DeliveryMethods()| && DeliveryMethods()[k].value == form.delivery
    ensures SubmitEnabled(form) <==> Find(CertificateTypes(), form.certType).Some? && Find(DeliveryMethods(), form.delivery).Some?
    ensures ShowsUrgentLine(form) <==> TotalPrice(form) == TotalPrice(form.(urgent := false)) + UrgentSurcharge
  {
    var types, methods := CertificateTypes(), DeliveryMethods();
    assert types[0].value != "" && types[1].value != "" && types[2].value != "";
    assert methods[0].value != "" && methods[1].value != "" && methods[2].value != "";
  }
}
