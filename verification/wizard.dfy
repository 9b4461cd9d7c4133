/** The four-step request wizard: the form schema, the step machine that
    only moves forward when the current step's fields validate, and the
    draft record it inserts. A date field is `None` while its input is
    empty and `Some(day)` once a date is picked. */
module Wizard {
  import opened Domain
  import Database

  datatype Field =
    | Origem | Destino | DataIda | DataRetorno
    | Justificativa | FonteRecurso | TipoTransporte | Roteiro

  /** The values the form holds. The inputs of step 1 are on screen from
      the start, so their values are always strings (a date is `None` while
      its input is empty). The text inputs of steps 2 and 3 only exist once
      their step has been shown: until then their value is undefined, here
      `None`, and afterwards a string, possibly empty. The funding source
      has a default value. */
  datatype TravelForm = TravelForm(
    origem: string,
    destino: string,
    dataIda: Option<int>,
    dataRetorno: Option<int>,
    justificativa: Option<string>,
    fonteRecurso: string,
    tipoTransporte: Option<string>,
    roteiro: Option<string>)

  /** The funding-source enumeration. */
  const FUNDING_SOURCES: set<string> := {"Tesouro", "FIPAT", "BID"}

  /** The form when the wizard opens: the step-1 inputs are empty, the
      inputs of the later steps do not exist yet, and the funding source
      has its default. */
  const INITIAL_FORM: TravelForm := TravelForm([], [], None, None, None, "Tesouro", None, None)

  /** Each field's own rule: minimum lengths, a non-empty date, membership
      in the enumeration. An undefined value fails its rule. */
  predicate FieldOk(f: TravelForm, fl: Field)
  {
    match fl
    case Origem => |f.origem| >= 2
    case Destino => |f.destino| >= 2
    case DataIda => f.dataIda.Some?
    case DataRetorno => f.dataRetorno.Some?
    case Justificativa => f.justificativa.Some? && |f.justificativa.value| >= 5
    case FonteRecurso => f.fonteRecurso in FUNDING_SOURCES
    case TipoTransporte => f.tipoTransporte.Some? && |f.tipoTransporte.value| >= 2
    case Roteiro => f.roteiro.Some? && |f.roteiro.value| >= 5
  }

  /** The object-level refinement runs only when parsing the fields did not
      abort: an undefined text value or a funding source outside the
      enumeration aborts it, a string that is too short does not. */
  predicate RefinementRuns(f: TravelForm)
  {
    f.justificativa.Some? && f.tipoTransporte.Some? && f.roteiro.Some? && f.fonteRecurso in FUNDING_SOURCES
  }

  /** The refinement itself: a return date not earlier than the departure
      date. An empty date does not compare as ordered. */
  predicate DatesOrdered(f: TravelForm)
  {
    f.dataIda.Some? && f.dataRetorno.Some? && f.dataRetorno.value >= f.dataIda.value
  }

  function ErrorIf(failed: bool, fl: Field): set<Field> { if failed then {fl} else {} }

  /** The fields whose own rule fails. */
  function FieldErrors(f: TravelForm): (errs: set<Field>)
    ensures forall fl :: fl in errs <==> !FieldOk(f, fl)
  {
    ErrorIf(!FieldOk(f, Origem), Origem) + ErrorIf(!FieldOk(f, Destino), Destino) +
    ErrorIf(!FieldOk(f, DataIda), DataIda) + ErrorIf(!FieldOk(f, DataRetorno), DataRetorno) +
    ErrorIf(!FieldOk(f, Justificativa), Justificativa) + ErrorIf(!FieldOk(f, FonteRecurso), FonteRecurso) +
    ErrorIf(!FieldOk(f, TipoTransporte), TipoTransporte) + ErrorIf(!FieldOk(f, Roteiro), Roteiro)
  }

  /** The fields the schema reports errors on: every field whose own rule
      fails, and `dataRetorno` when the refinement runs and fails. */
  function SchemaErrors(f: TravelForm): (errs: set<Field>)
    ensures forall fl :: fl in errs <==>
      !FieldOk(f, fl) || (fl == DataRetorno && RefinementRuns(f) && !DatesOrdered(f))
  {
    FieldErrors(f) + ErrorIf(RefinementRuns(f) && !DatesOrdered(f), DataRetorno)
  }

  predicate IsValid(f: TravelForm)
  {
    SchemaErrors(f) == {}
  }

  /** The schema in full: every value defined and within its length bound,
      the enumeration, both dates present and in order. */
  lemma ValidIff(f: TravelForm)
    ensures IsValid(f) <==>
      && |f.origem| >= 2 && |f.destino| >= 2
      && f.dataIda.Some? && f.dataRetorno.Some?
      && f.justificativa.Some? && |f.justificativa.value| >= 5
      && f.fonteRecurso in FUNDING_SOURCES
      && f.tipoTransporte.Some? && |f.tipoTransporte.value| >= 2
      && f.roteiro.Some? && |f.roteiro.value| >= 5
      && f.dataRetorno.value >= f.dataIda.value
  {
    if !IsValid(f) {
      var fl :| fl in SchemaErrors(f);
    }
  }

  /** Once the refinement runs and both dates are picked, `dataRetorno`
      carries an error exactly when the return is strictly before the
      departure; equal dates pass. */
  lemma DateOrderRule(f: TravelForm)
    requires f.dataIda.Some? && f.dataRetorno.Some? && RefinementRuns(f)
    ensures DataRetorno in SchemaErrors(f) <==> f.dataRetorno.value < f.dataIda.value
    ensures DataIda !in SchemaErrors(f)
  {
  }

  /** While a later step's input has never been shown, the date order is
      not checked at all: `dataRetorno` is flagged only when it is empty. */
  lemma DateOrderSkippedBeforeLaterSteps(f: TravelForm)
    requires f.justificativa.None? || f.tipoTransporte.None? || f.roteiro.None?
    ensures DataRetorno in SchemaErrors(f) <==> f.dataRetorno.None?
  {
  }

  /** The fields `nextStep` validates on each step; step 4 validates none. */
  function StepFields(step: int): set<Field>
  {
    if step == 1 then {Origem, Destino, DataIda, DataRetorno}
    else if step == 2 then {Justificativa, FonteRecurso, TipoTransporte}
    else if step == 3 then {Roteiro}
    else {}
  }

  /** `trigger(fieldsToValidate)`: the whole schema runs, and none of the
      step's fields may carry an error. */
  predicate StepValid(step: int, f: TravelForm)
  {
    StepFields(step) !! SchemaErrors(f)
  }

  /** On the first pass through step 1 (step 2 never shown), the step
      checks the four step-1 values each on its own, and a return before
      the departure passes. */
  lemma FirstPassStepOne(f: TravelForm)
    requires f.justificativa.None?
    ensures StepValid(1, f) <==> |f.origem| >= 2 && |f.destino| >= 2 && f.dataIda.Some? && f.dataRetorno.Some?
  {
    DateOrderSkippedBeforeLaterSteps(f);
  }

  /** Once every input has been shown, the three steps together check the
      whole schema: a form that passes every step passes the final
      validation, and conversely. */
  lemma StepsCoverSchema(f: TravelForm)
    requires f.justificativa.Some? && f.tipoTransporte.Some? && f.roteiro.Some?
    ensures StepValid(1, f) && StepValid(2, f) && StepValid(3, f) <==> IsValid(f)
  {
    forall fl: Field
      ensures fl in StepFields(1) + StepFields(2) + StepFields(3)
    {
      match fl
      case Origem =>
      case Destino =>
      case DataIda =>
      case DataRetorno =>
      case Justificativa =>
      case FonteRecurso =>
      case TipoTransporte =>
      case Roteiro =>
    }
  }

  /** A text input that mounts takes the empty string as its value, unless
      it already had one. */
  function Mounted(v: Option<string>): (r: Option<string>)
    ensures r.Some?
    ensures v.None? ==> r == Some([])
    ensures v.Some? ==> r == v
  {
    if v.None? then Some([]) else v
  }

  /** Showing a step mounts its inputs: step 2 defines `justificativa` and
      `tipoTransporte`, step 3 defines `roteiro`. Nothing else changes, and
      a value already defined is kept. */
  function ShowStep(f: TravelForm, step: int): (g: TravelForm)
    ensures step >= 2 && f.justificativa.Some? ==> g.justificativa == f.justificativa
    ensures step == 2 ==> g.justificativa.Some? && g.tipoTransporte.Some?
    ensures step == 3 ==> g.roteiro.Some?
    ensures g.origem == f.origem && g.destino == f.destino && g.dataIda == f.dataIda
    ensures g.dataRetorno == f.dataRetorno && g.fonteRecurso == f.fonteRecurso
    ensures f.justificativa.Some? ==> g.justificativa == f.justificativa
    ensures f.tipoTransporte.Some? ==> g.tipoTransporte == f.tipoTransporte
    ensures f.roteiro.Some? ==> g.roteiro == f.roteiro
    ensures step != 2 ==> g.justificativa == f.justificativa && g.tipoTransporte == f.tipoTransporte
    ensures step != 3 ==> g.roteiro == f.roteiro
    ensures step == 2 ==> g.justificativa == Mounted(f.justificativa) && g.tipoTransporte == Mounted(f.tipoTransporte)
    ensures step == 3 ==> g.roteiro == Mounted(f.roteiro)
  {
    if step == 2 then f.(justificativa := Mounted(f.justificativa), tipoTransporte := Mounted(f.tipoTransporte))
    else if step == 3 then f.(roteiro := Mounted(f.roteiro))
    else f
  }

  /** The same inputs exist in both forms: typing changes values, not
      which inputs have been shown. */
  predicate SameInputsShown(f: TravelForm, g: TravelForm)
  {
    f.justificativa.Some? == g.justificativa.Some? &&
    f.tipoTransporte.Some? == g.tipoTransporte.Some? &&
    f.roteiro.Some? == g.roteiro.Some?
  }

  const TRANSPORT_LABEL: string := " | Transporte: "
  const ORIGIN_LABEL: string := " | Origem: "
  const ROUTE_LABEL: string := " | Roteiro: "

  /** The text stored as the request's justification: the justification,
      the transport label and type, the origin label and origin, the route
      label and itinerary, one after the other. */
  function CombinedJustificativa(justificativa: string, tipoTransporte: string, origem: string, roteiro: string): (s: string)
    ensures |s| == |justificativa| + |tipoTransporte| + |origem| + |roteiro| + 38
    ensures var a := |justificativa|;
            var b := a + 15 + |tipoTransporte|;
            var c := b + 11 + |origem|;
            && s[..a] == justificativa
            && s[a..a + 15] == TRANSPORT_LABEL
            && s[a + 15..b] == tipoTransporte
            && s[b..b + 11] == ORIGIN_LABEL
            && s[b + 11..c] == origem
            && s[c..c + 12] == ROUTE_LABEL
            && s[c + 12..] == roteiro
  {
    justificativa + TRANSPORT_LABEL + tipoTransporte + ORIGIN_LABEL + origem + ROUTE_LABEL + roteiro
  }

  /** The row `onSubmit` inserts: a draft whose return date is not before
      its departure, carrying the form's destination, dates and funding
      source. */
  function DraftFromForm(newId: string, userId: string, f: TravelForm): (r: TravelRecord)
    requires IsValid(f)
    ensures r.status == Rascunho && r.id == newId && r.userId == userId
    ensures r.dataIda <= r.dataRetorno
    ensures r.destino == f.destino && r.fonteRecurso == f.fonteRecurso
    ensures Some(r.dataIda) == f.dataIda && Some(r.dataRetorno) == f.dataRetorno
    ensures r.justificativa ==
      CombinedJustificativa(f.justificativa.value, f.tipoTransporte.value, f.origem, f.roteiro.value)
  {
    ValidIff(f);
    TravelRecord(newId, userId, f.destino, f.dataIda.value, f.dataRetorno.value,
                 CombinedJustificativa(f.justificativa.value, f.tipoTransporte.value, f.origem, f.roteiro.value),
                 f.fonteRecurso, Rascunho)
  }

  /** What a press of "Finalizar Solicitação" leads to. */
  datatype SubmitOutcome = Invalid(errors: set<Field>) | InsertFailed | Created(record: TravelRecord)

  /** The wizard's component state: the step, the form values, the picked
      files. */
  class WizardTravelRequest {
    var currentStep: int
    var form: TravelForm
    var files: seq<string>

    /** The step is one of the four, and every step reached so far has
        mounted its inputs. */
    ghost predicate Valid()
      reads this
    {
      && 1 <= currentStep <= 4
      && (currentStep >= 2 ==> form.justificativa.Some? && form.tipoTransporte.Some?)
      && (currentStep >= 3 ==> form.roteiro.Some?)
    }

    constructor ()
      ensures Valid() && currentStep == 1 && form == INITIAL_FORM && files == []
    {
      currentStep := 1;
      form := INITIAL_FORM;
      files := [];
    }

    /** The user types into the inputs that exist: values change, the set
        of mounted inputs does not. */
    method EditForm(f: TravelForm)
      requires Valid() && SameInputsShown(form, f)
      modifies this
      ensures Valid()
      ensures form == f && currentStep == old(currentStep) && files == old(files)
    {
      form := f;
    }

    /** `nextStep`: advance by one, never past 4, only when the current
        step's fields validate; the step shown next mounts its inputs. */
    method NextStep()
      requires Valid()
      modifies this
      ensures Valid()
      ensures StepValid(old(currentStep), old(form)) ==>
        currentStep == Min(old(currentStep) + 1, 4) && form == ShowStep(old(form), currentStep)
      ensures !StepValid(old(currentStep), old(form)) ==> currentStep == old(currentStep) && form == old(form)
      ensures files == old(files)
    {
      if StepValid(currentStep, form) {
        currentStep := Min(currentStep + 1, 4);
        form := ShowStep(form, currentStep);
      }
    }

    /** `prevStep`: back by one, never below 1. */
    method PrevStep()
      requires Valid()
      modifies this
      ensures Valid()
      ensures currentStep == Max(old(currentStep) - 1, 1)
      ensures form == old(form) && files == old(files)
    {
      currentStep := Max(currentStep - 1, 1);
    }

    /** The wizard's upload input replaces the picked files. */
    method HandleFileUpload(picked: seq<string>)
      requires Valid()
      modifies this
      ensures Valid()
      ensures files == picked && currentStep == old(currentStep) && form == old(form)
    {
      files := picked;
    }

    /** `handleSubmit(onSubmit)`: an invalid form is reported field by field
        and inserts nothing; a valid one inserts the draft unless the insert
        fails. */
    method Submit(db: Database.Store, userId: string, newId: string, insertFails: bool) returns (outcome: SubmitOutcome)
      modifies db
      ensures !IsValid(form) ==> outcome == Invalid(SchemaErrors(form)) && db.requests == old(db.requests)
      ensures IsValid(form) && insertFails ==> outcome == InsertFailed && db.requests == old(db.requests)
      ensures IsValid(form) && !insertFails ==>
        outcome == Created(DraftFromForm(newId, userId, form)) &&
        db.requests == old(db.requests) + [DraftFromForm(newId, userId, form)]
      ensures db.workflow == old(db.workflow) && db.notifications == old(db.notifications)
    {
      if !IsValid(form) {
        outcome := Invalid(SchemaErrors(form));
      } else if insertFails {
        outcome := InsertFailed;
      } else {
        var r := DraftFromForm(newId, userId, form);
        db.InsertRequest(r);
        outcome := Created(r);
      }
    }
  }

  /** The form of the example below once every input has been filled:
      all values pass their own rules, but the return (day 5) is before the
      departure (day 10). */
  const EARLY_RETURN_FORM: TravelForm :=
    TravelForm("ab", "cd", Some(10), Some(5), Some("Visita"), "Tesouro", Some("Aereo"), Some("Dia 1"))

  lemma EarlyReturnFormErrors()
    ensures SchemaErrors(EARLY_RETURN_FORM) == {DataRetorno}
  {
    var f := EARLY_RETURN_FORM;
    assert |f.justificativa.value| == 6 && |f.tipoTransporte.value| == 5 && |f.roteiro.value| == 5;
    forall fl: Field
      ensures fl in SchemaErrors(f) <==> fl == DataRetorno
    {
    }
  }

  /** Step 2 of the example passes before the itinerary input exists. */
  lemma EarlyReturnStepTwo()
    ensures StepValid(2, EARLY_RETURN_FORM.(roteiro := None))
  {
    var f := EARLY_RETURN_FORM.(roteiro := None);
    assert |f.justificativa.value| == 6 && |f.tipoTransporte.value| == 5;
  }

  /** Step 3 of the example passes with every input filled. */
  lemma EarlyReturnStepThree()
    ensures StepValid(3, EARLY_RETURN_FORM)
  {
    assert |EARLY_RETURN_FORM.roteiro.value| == 5;
  }

  /** A return date before the departure date does not stop the wizard:
      step 1 is first checked while the later inputs do not exist, so the
      date order is skipped and the user reaches the last step; only the
      final submission reports the error, on `dataRetorno`, and nothing is
      inserted. */
  method ReturnBeforeDepartureReachesLastStep() returns (step: int, outcome: SubmitOutcome)
    ensures step == 4 && outcome == Invalid({DataRetorno})
  {
    var full := EARLY_RETURN_FORM;
    var w := new WizardTravelRequest();
    var f1 := full.(justificativa := None, tipoTransporte := None, roteiro := None);
    w.EditForm(f1);
    FirstPassStepOne(f1);
    w.NextStep();
    assert w.currentStep == 2;
    var f2 := full.(roteiro := None);
    w.EditForm(f2);
    EarlyReturnStepTwo();
    w.NextStep();
    assert w.currentStep == 3;
    w.EditForm(full);
    EarlyReturnStepThree();
    w.NextStep();
    assert w.currentStep == 4 && w.form == full;
    EarlyReturnFormErrors();
    var db := new Database.Store([]);
    outcome := w.Submit(db, "u1", "r1", false);
    step := w.currentStep;
  }
}
