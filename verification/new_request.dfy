/** The single-page request form: a strict date comparison, then the
    insertion of a draft row, with the `loading` and `error` flags the page
    shows. */
module NewRequest {
  import opened Domain
  import Database
  import Wizard

  /** "A data de retorno não pode ser anterior à data de ida." */
  const DATE_ORDER_ERROR: string :=
    "A data de retorno n\U{E3}o pode ser anterior \U{E0} data de ida."
  /** "Erro ao criar a solicitação de viagem" */
  const INSERT_FALLBACK_ERROR: string := "Erro ao criar a solicita\U{E7}\U{E3}o de viagem"

  /** The only check `handleSubmit` makes: a strict `<` on the dates. */
  predicate ReturnBeforeDeparture(dataIda: int, dataRetorno: int)
  {
    dataRetorno < dataIda
  }

  /** This page and the wizard's final validation reject the same date
      pairs: once every wizard input has been shown and the funding source
      is one of the enumeration, the wizard flags `dataRetorno` exactly
      when this page refuses to insert. */
  lemma DateRulesAgree(f: Wizard.TravelForm)
    requires f.dataIda.Some? && f.dataRetorno.Some? && Wizard.RefinementRuns(f)
    ensures Wizard.DataRetorno in Wizard.SchemaErrors(f) <==>
            ReturnBeforeDeparture(f.dataIda.value, f.dataRetorno.value)
  {
    Wizard.DateOrderRule(f);
  }

  /** The message shown when the insert fails: the error's own message,
      or the fallback text when that message is empty. */
  function InsertErrorMessage(message: string): (m: string)
    ensures m != []
    ensures message != [] ==> m == message
  {
    if message != [] then message else INSERT_FALLBACK_ERROR
  }

  /** The row this page inserts: the form's fields as typed, status
      `Rascunho`. */
  function DraftRecord(newId: string, userId: string, destino: string, dataIda: int, dataRetorno: int,
                       justificativa: string, fonteRecurso: string): (r: TravelRecord)
    requires !ReturnBeforeDeparture(dataIda, dataRetorno)
    ensures r.status == Rascunho && r.dataIda <= r.dataRetorno
    ensures r.id == newId && r.userId == userId && r.dataIda == dataIda && r.dataRetorno == dataRetorno
    ensures r.destino == destino && r.justificativa == justificativa && r.fonteRecurso == fonteRecurso
  {
    TravelRecord(newId, userId, destino, dataIda, dataRetorno, justificativa, fonteRecurso, Rascunho)
  }

  /** How a submission of the page ends. */
  datatype SubmitOutcome = DateRejected | InsertFailed | Created(record: TravelRecord)

  /** The page's state: the two flags and the five inputs. */
  class NewTravelRequest {
    var loading: bool
    var error: Option<string>
    var destino: string
    var dataIda: Option<int>
    var dataRetorno: Option<int>
    var justificativa: string
    var fonteRecurso: string

    constructor ()
      ensures !loading && error == None
      ensures destino == [] && dataIda == None && dataRetorno == None && justificativa == []
      ensures fonteRecurso == "Tesouro"
    {
      loading := false;
      error := None;
      destino := [];
      dataIda := None;
      dataRetorno := None;
      justificativa := [];
      fonteRecurso := "Tesouro";
    }

    /** The inputs marked `required`: the browser submits the form only
        when all of them are filled. */
    predicate RequiredFilled()
      reads this
    {
      destino != [] && dataIda.Some? && dataRetorno.Some? && justificativa != [] && fonteRecurso != []
    }

    /** `handleSubmit`. A return strictly before the departure sets the date
        error and inserts nothing; otherwise the draft is inserted, and a
        failed insert shows its message (or the fallback). `loading` is
        false on every way out. */
    method HandleSubmit(db: Database.Store, userId: string, newId: string, insertError: Option<string>)
      returns (outcome: SubmitOutcome)
      requires RequiredFilled()
      modifies this, db
      ensures ReturnBeforeDeparture(old(dataIda).value, old(dataRetorno).value) ==>
        outcome == DateRejected && error == Some(DATE_ORDER_ERROR) && db.requests == old(db.requests)
      ensures !ReturnBeforeDeparture(old(dataIda).value, old(dataRetorno).value) && insertError.Some? ==>
        outcome == InsertFailed && error == Some(InsertErrorMessage(insertError.value)) &&
        db.requests == old(db.requests)
      ensures !ReturnBeforeDeparture(old(dataIda).value, old(dataRetorno).value) && insertError.None? ==>
        outcome == Created(DraftRecord(newId, userId, old(destino), old(dataIda).value, old(dataRetorno).value,
                                       old(justificativa), old(fonteRecurso))) &&
        error == None &&
        db.requests == old(db.requests) + [outcome.record]
      ensures !loading
      ensures destino == old(destino) && dataIda == old(dataIda) && dataRetorno == old(dataRetorno)
      ensures justificativa == old(justificativa) && fonteRecurso == old(fonteRecurso)
      ensures db.workflow == old(db.workflow) && db.notifications == old(db.notifications)
    {
      loading := true;
      error := None;
      if ReturnBeforeDeparture(dataIda.value, dataRetorno.value) {
        error := Some(DATE_ORDER_ERROR);
        loading := false;
        outcome := DateRejected;
        return;
      }
      if insertError.Some? {
        error := Some(InsertErrorMessage(insertError.value));
        outcome := InsertFailed;
      } else {
        var r := DraftRecord(newId, userId, destino, dataIda.value, dataRetorno.value, justificativa, fonteRecurso);
        db.InsertRequest(r);
        outcome := Created(r);
      }
      loading := false;
    }
  }
}
