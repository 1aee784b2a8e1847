/** The five-step registration wizard of app/register/page.tsx: the form
    record, per-step validation, the previous / next / step-button
    transitions and the submit guard. */
module Register {

  datatype DateParts = DateParts(jour: string, mois: string, annee: string)

  datatype Address = Address(adresse: string, prefecture: string, commune: string, codePostal: string)

  datatype FormData = FormData(
    // step 1: personal information
    civilite: string,
    nom: string,
    prenom: string,
    cin: string,
    dateNaissance: DateParts,
    // step 2: contact information
    mobile: string,
    telephoneFixe: string,
    fax: string,
    siteWeb: string,
    // step 3: addresses
    adresseProfessionnelle: Address,
    adresseDomicile: Address,
    // step 4: professional information
    modeExercice: string,
    typeDiplome: string,
    dateObtentionDiplome: DateParts,
    cnoa: string,
    // step 5: user account
    nomUtilisateur: string,
    email: string,
    motDePasse: string,
    confirmerMotDePasse: string)

  /** The top-level string fields that `updateFormData` is called with. */
  datatype Field =
    | Civilite | Nom | Prenom | Cin
    | Mobile | TelephoneFixe | Fax | SiteWeb
    | ModeExercice | TypeDiplome | Cnoa
    | NomUtilisateur | Email | MotDePasse | ConfirmerMotDePasse

  /** The nested records that `updateNestedFormData` is called with, and
      their sub-fields. */
  datatype Group = DateNaissance | AdresseProfessionnelle | AdresseDomicile | DateObtentionDiplome

  datatype SubField = Jour | Mois | Annee | Adresse | Prefecture | Commune | CodePostal

  /** A sub-field that the group's record has. */
  predicate Belongs(g: Group, s: SubField) {
    if g == DateNaissance || g == DateObtentionDiplome then s in {Jour, Mois, Annee}
    else s in {Adresse, Prefecture, Commune, CodePostal}
  }

  function Get(f: FormData, field: Field): string {
    match field
    case Civilite => f.civilite
    case Nom => f.nom
    case Prenom => f.prenom
    case Cin => f.cin
    case Mobile => f.mobile
    case TelephoneFixe => f.telephoneFixe
    case Fax => f.fax
    case SiteWeb => f.siteWeb
    case ModeExercice => f.modeExercice
    case TypeDiplome => f.typeDiplome
    case Cnoa => f.cnoa
    case NomUtilisateur => f.nomUtilisateur
    case Email => f.email
    case MotDePasse => f.motDePasse
    case ConfirmerMotDePasse => f.confirmerMotDePasse
  }

  function GetDate(d: DateParts, s: SubField): string {
    match s
    case Jour => d.jour
    case Mois => d.mois
    case _ => d.annee
  }

  function GetAddress(a: Address, s: SubField): string {
    match s
    case Adresse => a.adresse
    case Prefecture => a.prefecture
    case Commune => a.commune
    case _ => a.codePostal
  }

  function GetSub(f: FormData, g: Group, s: SubField): string
    requires Belongs(g, s)
  {
    match g
    case DateNaissance => GetDate(f.dateNaissance, s)
    case DateObtentionDiplome => GetDate(f.dateObtentionDiplome, s)
    case AdresseProfessionnelle => GetAddress(f.adresseProfessionnelle, s)
    case AdresseDomicile => GetAddress(f.adresseDomicile, s)
  }

  /** `initialFormData`: every field empty. It passes no step. */
  function InitialFormData(): (f: FormData)
    ensures forall field :: Get(f, field) == ""
    ensures forall g, s | Belongs(g, s) :: GetSub(f, g, s) == ""
    ensures forall step :: !ValidateStep(step, f)
  {
    var d := DateParts("", "", "");
    var a := Address("", "", "", "");
    FormData("", "", "", "", d, "", "", "", "", a, a, "", "", d, "", "", "", "", "")
  }

  /** `updateFormData(field, value)`: `{...prev, [field]: value}`. */
  function WithField(f: FormData, field: Field, v: string): (r: FormData)
    ensures Get(r, field) == v
    ensures forall other :: other != field ==> Get(r, other) == Get(f, other)
    ensures forall g, s | Belongs(g, s) :: GetSub(r, g, s) == GetSub(f, g, s)
  {
    match field
    case Civilite => f.(civilite := v)
    case Nom => f.(nom := v)
    case Prenom => f.(prenom := v)
    case Cin => f.(cin := v)
    case Mobile => f.(mobile := v)
    case TelephoneFixe => f.(telephoneFixe := v)
    case Fax => f.(fax := v)
    case SiteWeb => f.(siteWeb := v)
    case ModeExercice => f.(modeExercice := v)
    case TypeDiplome => f.(typeDiplome := v)
    case Cnoa => f.(cnoa := v)
    case NomUtilisateur => f.(nomUtilisateur := v)
    case Email => f.(email := v)
    case MotDePasse => f.(motDePasse := v)
    case ConfirmerMotDePasse => f.(confirmerMotDePasse := v)
  }

  function WithDate(d: DateParts, s: SubField, v: string): DateParts {
    match s
    case Jour => d.(jour := v)
    case Mois => d.(mois := v)
    case _ => d.(annee := v)
  }

  function WithAddress(a: Address, s: SubField, v: string): Address {
    match s
    case Adresse => a.(adresse := v)
    case Prefecture => a.(prefecture := v)
    case Commune => a.(commune := v)
    case _ => a.(codePostal := v)
  }

  /** `updateNestedFormData(parent, field, value)`:
      `{...prev, [parent]: {...prev[parent], [field]: value}}`. */
  function WithSub(f: FormData, g: Group, s: SubField, v: string): (r: FormData)
    requires Belongs(g, s)
    ensures GetSub(r, g, s) == v
    ensures forall g', s' | Belongs(g', s') && (g', s') != (g, s) :: GetSub(r, g', s') == GetSub(f, g', s')
    ensures forall field :: Get(r, field) == Get(f, field)
  {
    match g
    case DateNaissance => f.(dateNaissance := WithDate(f.dateNaissance, s, v))
    case DateObtentionDiplome => f.(dateObtentionDiplome := WithDate(f.dateObtentionDiplome, s, v))
    case AdresseProfessionnelle => f.(adresseProfessionnelle := WithAddress(f.adresseProfessionnelle, s, v))
    case AdresseDomicile => f.(adresseDomicile := WithAddress(f.adresseDomicile, s, v))
  }

  /** `validateStep(step)`: the required fields of the step are non-empty
      (step 5 also needs the two passwords equal); any other step fails. */
  predicate ValidateStep(step: int, f: FormData)
  {
    if step == 1 then
      f.civilite != "" && f.nom != "" && f.prenom != "" && f.cin != ""
      && f.dateNaissance.jour != "" && f.dateNaissance.mois != "" && f.dateNaissance.annee != ""
    else if step == 2 then
      f.mobile != ""
    else if step == 3 then
      f.adresseProfessionnelle.adresse != "" && f.adresseProfessionnelle.prefecture != ""
      && f.adresseProfessionnelle.commune != ""
      && f.adresseDomicile.adresse != "" && f.adresseDomicile.prefecture != ""
      && f.adresseDomicile.commune != ""
    else if step == 4 then
      f.modeExercice != "" && f.typeDiplome != ""
      && f.dateObtentionDiplome.jour != "" && f.dateObtentionDiplome.mois != ""
      && f.dateObtentionDiplome.annee != "" && f.cnoa != ""
    else if step == 5 then
      f.nomUtilisateur != "" && f.email != "" && f.motDePasse != "" && f.confirmerMotDePasse != ""
      && f.motDePasse == f.confirmerMotDePasse
    else
      false
  }

  /** Steps outside 1..5 never validate, and step 5 validates only with an
      account name, an email and a non-empty password confirmed exactly. */
  lemma ValidateStepBounds(step: int, f: FormData)
    ensures ValidateStep(step, f) ==> 1 <= step <= 5
    ensures ValidateStep(5, f) <==>
              Get(f, NomUtilisateur) != "" && Get(f, Email) != ""
              && Get(f, MotDePasse) != "" && Get(f, MotDePasse) == Get(f, ConfirmerMotDePasse)
  {
  }

  /** The optional fields (fixed phone, fax, web site and both postal codes)
      never change the result of any step's validation. */
  lemma OptionalFieldsIgnored(step: int, f: FormData, field: Field, v: string)
    requires field in {TelephoneFixe, Fax, SiteWeb}
    ensures ValidateStep(step, WithField(f, field, v)) == ValidateStep(step, f)
  {
  }

  lemma PostalCodesIgnored(step: int, f: FormData, g: Group, v: string)
    requires g in {AdresseProfessionnelle, AdresseDomicile}
    ensures ValidateStep(step, WithSub(f, g, CodePostal, v)) == ValidateStep(step, f)
  {
  }

  /** `isStepCompleted(step)`. */
  predicate IsStepCompleted(step: int, current: int, f: FormData) {
    step < current || ValidateStep(step, f)
  }

  /** A step button is enabled (`isAccessible`). */
  predicate IsAccessible(step: int, current: int, f: FormData) {
    step <= current || IsStepCompleted(step, current, f)
  }

  /** A step button is enabled exactly for the steps at or before the
      current one and for any later step whose own fields validate, whatever
      the steps in between. */
  lemma AccessibleIff(step: int, current: int, f: FormData)
    ensures IsAccessible(step, current, f) <==> step <= current || ValidateStep(step, f)
  {
  }

  /** `nextStep()`. */
  function AfterNext(current: int, f: FormData): (next: int)
    requires 1 <= current <= 5
    ensures 1 <= next <= 5
    ensures next == current + 1 <==> ValidateStep(current, f) && current < 5
    ensures next != current + 1 ==> next == current
  {
    if ValidateStep(current, f) && current < 5 then current + 1 else current
  }

  /** `prevStep()`. */
  function AfterPrev(current: int): (prev: int)
    requires 1 <= current <= 5
    ensures 1 <= prev <= 5
    ensures prev == current - 1 <==> current > 1
    ensures prev != current - 1 ==> prev == current
  {
    if current > 1 then current - 1 else current
  }

  /** A click on the button of step `step` (an id of the `steps` array). */
  function AfterClick(step: int, current: int, f: FormData): (r: int)
    requires 1 <= step <= 5 && 1 <= current <= 5
    ensures 1 <= r <= 5
    ensures r == step <==> step <= current || ValidateStep(step, f)
    ensures r != step ==> r == current
  {
    if IsAccessible(step, current, f) then step else current
  }

  /** `handleSubmit` goes on to submit exactly when step 5 validates; the
      earlier steps are not checked again. */
  predicate SubmitAccepted(f: FormData) {
    ValidateStep(5, f)
  }

  /** From step 1, the button of step 5 is enabled by the account fields
      alone, and the submit guard then accepts a form whose steps 1 to 4
      are all empty. */
  lemma JumpPastUnvalidatedSteps(v: string)
    requires v != ""
    ensures var f := WithField(WithField(WithField(WithField(
                       InitialFormData(), NomUtilisateur, v), Email, v), MotDePasse, v), ConfirmerMotDePasse, v);
            && AfterClick(5, 1, f) == 5 && SubmitAccepted(f)
            && !ValidateStep(1, f) && !ValidateStep(2, f) && !ValidateStep(3, f) && !ValidateStep(4, f)
  {
  }

  /** A password confirmation that differs blocks submission whatever the
      other fields hold. */
  lemma MismatchBlocksSubmit(f: FormData)
    requires Get(f, MotDePasse) != Get(f, ConfirmerMotDePasse)
    ensures !SubmitAccepted(f)
  {
  }

  /** The wizard's page state. */
  class RegisterWizard {
    var currentStep: int
    var formData: FormData

    ghost predicate Valid()
      reads this
    {
      1 <= currentStep <= 5
    }

    constructor ()
      ensures Valid()
      ensures currentStep == 1 && formData == InitialFormData()
    {
      currentStep := 1;
      formData := InitialFormData();
    }

    method UpdateFormData(field: Field, v: string)
      requires Valid()
      modifies this
      ensures Valid()
      ensures formData == WithField(old(formData), field, v) && currentStep == old(currentStep)
    {
      formData := WithField(formData, field, v);
    }

    method UpdateNestedFormData(g: Group, s: SubField, v: string)
      requires Valid() && Belongs(g, s)
      modifies this
      ensures Valid()
      ensures formData == WithSub(old(formData), g, s, v) && currentStep == old(currentStep)
    {
      formData := WithSub(formData, g, s, v);
    }

    method NextStep()
      requires Valid()
      modifies this
      ensures Valid()
      ensures currentStep == AfterNext(old(currentStep), formData) && formData == old(formData)
    {
      if ValidateStep(currentStep, formData) && currentStep < 5 {
        currentStep := currentStep + 1;
      }
    }

    method PrevStep()
      requires Valid()
      modifies this
      ensures Valid()
      ensures currentStep == AfterPrev(old(currentStep)) && formData == old(formData)
    {
      if currentStep > 1 {
        currentStep := currentStep - 1;
      }
    }

    method ClickStepButton(step: int)
      requires Valid() && 1 <= step <= 5
      modifies this
      ensures Valid()
      ensures currentStep == AfterClick(step, old(currentStep), formData) && formData == old(formData)
    {
      var isAccessible := step <= currentStep || IsStepCompleted(step, currentStep, formData);
      if isAccessible {
        currentStep := step;
      }
    }

    method HandleSubmit() returns (accepted: bool)
      requires Valid()
      ensures accepted == SubmitAccepted(formData)
    {
      if !ValidateStep(5, formData) {
        return false;
      }
      accepted := true;
    }
  }
}
