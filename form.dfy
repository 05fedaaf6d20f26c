/**
 * The appointment creation form's state and event handlers: four field
 * texts, the last validation result, and which fields the user has visited.
 */
module Form {
  import opened Wrappers
  import opened Calendar
  import opened Validation

  datatype Field = Nome | Servico | Data | Hora

  /** The draft handed to the submit callback. */
  datatype AgendamentoCreate = AgendamentoCreate(nome: string, servico: string, data: string, hora: string)

  /** The entry of an errors record for one field. */
  function ErrorOf(e: ValidationErrors, f: Field): Option<string>
  {
    match f
    case Nome => e.nome
    case Servico => e.servico
    case Data => e.data
    case Hora => e.hora
  }

  /** The record with the entry of f set to undefined and every other entry kept. */
  function ClearError(e: ValidationErrors, f: Field): (e': ValidationErrors)
    ensures ErrorOf(e', f) == None
    ensures forall g :: g != f ==> ErrorOf(e', g) == ErrorOf(e, g)
  {
    match f
    case Nome => e.(nome := None)
    case Servico => e.(servico := None)
    case Data => e.(data := None)
    case Hora => e.(hora := None)
  }

  /** `{ nome: true, servico: true, data: true, hora: true }` */
  const AllTouched: map<Field, bool> := map[Nome := true, Servico := true, Data := true, Hora := true]

  class AgendamentoForm {
    var nome: string
    var servico: string
    var data: string
    var hora: string
    var errors: ValidationErrors
    var touched: map<Field, bool>

    /** `touched[f]` is truthy: an absent entry reads as undefined. */
    predicate IsTouched(f: Field)
      reads this
    {
      f in touched && touched[f]
    }

    /**
     * What every handler keeps: the touched map only ever records true, and a
     * field carries an error message only once it has been touched, so every
     * stored message is one the form displays.
     */
    ghost predicate Valid()
      reads this
    {
      (forall f :: f in touched ==> touched[f])
      && (errors.nome.Some? ==> IsTouched(Nome))
      && (errors.servico.Some? ==> IsTouched(Servico))
      && (errors.data.Some? ==> IsTouched(Data))
      && (errors.hora.Some? ==> IsTouched(Hora))
    }

    /** The draft made of the four current texts. */
    function Draft(): AgendamentoCreate
      reads this
    {
      AgendamentoCreate(nome, servico, data, hora)
    }

    /** The initial state: empty texts, `{}` errors, `{}` touched. */
    constructor ()
      ensures Valid()
      ensures nome == "" && servico == "" && data == "" && hora == ""
      ensures errors == NoErrors && touched == map[]
    {
      nome, servico, data, hora := "", "", "", "";
      errors := NoErrors;
      touched := map[];
    }

    /** Leaving a field marks it touched and changes nothing else. */
    method HandleBlur(field: Field)
      requires Valid()
      modifies this
      ensures Valid()
      ensures touched == old(touched)[field := true]
      ensures Draft() == old(Draft()) && errors == old(errors)
    {
      touched := touched[field := true];
    }

    /**
     * Editing the name stores the new text; if the name was touched its error
     * is cleared, otherwise the errors stay as they were. The other texts and
     * the touched map are unchanged.
     */
    method HandleNomeChange(value: string)
      requires Valid()
      modifies this
      ensures Valid()
      ensures nome == value
      ensures servico == old(servico) && data == old(data) && hora == old(hora)
      ensures errors == if old(IsTouched(Nome)) then ClearError(old(errors), Nome) else old(errors)
      ensures touched == old(touched)
    {
      nome := value;
      if IsTouched(Nome) {
        errors := ClearError(errors, Nome);
      }
    }

    /** As for the name, for the service field. */
    method HandleServicoChange(value: string)
      requires Valid()
      modifies this
      ensures Valid()
      ensures servico == value
      ensures nome == old(nome) && data == old(data) && hora == old(hora)
      ensures errors == if old(IsTouched(Servico)) then ClearError(old(errors), Servico) else old(errors)
      ensures touched == old(touched)
    {
      servico := value;
      if IsTouched(Servico) {
        errors := ClearError(errors, Servico);
      }
    }

    /** As for the name, for the date field. */
    method HandleDataChange(value: string)
      requires Valid()
      modifies this
      ensures Valid()
      ensures data == value
      ensures nome == old(nome) && servico == old(servico) && hora == old(hora)
      ensures errors == if old(IsTouched(Data)) then ClearError(old(errors), Data) else old(errors)
      ensures touched == old(touched)
    {
      data := value;
      if IsTouched(Data) {
        errors := ClearError(errors, Data);
      }
    }

    /** As for the name, for the time field. */
    method HandleHoraChange(value: string)
      requires Valid()
      modifies this
      ensures Valid()
      ensures hora == value
      ensures nome == old(nome) && servico == old(servico) && data == old(data)
      ensures errors == if old(IsTouched(Hora)) then ClearError(old(errors), Hora) else old(errors)
      ensures touched == old(touched)
    {
      hora := value;
      if IsTouched(Hora) {
        errors := ClearError(errors, Hora);
      }
    }

    /**
     * The part of the submit handler that runs before the callback is
     * awaited: every field is marked touched and the validation of the
     * current texts is stored. With errors nothing is sent and the texts stay;
     * without, the result is the draft to hand to the callback.
     */
    method BeginSubmit(today: Date) returns (sent: Option<AgendamentoCreate>)
      requires Valid()
      modifies this
      ensures Valid()
      ensures Draft() == old(Draft()) && touched == AllTouched
      ensures errors == ValidateAgendamentoForm(old(nome), old(servico), old(data), old(hora), today)
      ensures sent == if HasValidationErrors(errors) then None else Some(old(Draft()))
    {
      var draft := Draft();
      touched := AllTouched;
      var validationErrors := ValidateAgendamentoForm(draft.nome, draft.servico, draft.data, draft.hora, today);
      errors := validationErrors;
      if HasValidationErrors(validationErrors) {
        return None;
      }
      return Some(draft);
    }

    /**
     * The part that runs once the callback has settled: on success the form
     * is reset to its initial state, on failure it is left as it is so the
     * user can correct the input.
     */
    method FinishSubmit(succeeded: bool)
      requires Valid()
      modifies this
      ensures Valid()
      ensures if succeeded then
                Draft() == AgendamentoCreate("", "", "", "") && errors == NoErrors && touched == map[]
              else
                Draft() == old(Draft()) && errors == old(errors) && touched == old(touched)
    {
      if succeeded {
        nome, servico, data, hora := "", "", "", "";
        errors := NoErrors;
        touched := map[];
      }
    }

    /**
     * The whole submit handler, the callback's outcome given: every field is
     * marked touched and validated. With errors, nothing is sent and the texts
     * stay. Without, the draft is sent; when the callback succeeds the form is
     * reset, and when it fails the texts, the empty error record and the
     * all-touched map remain.
     */
    method HandleSubmit(today: Date, onSubmitSucceeds: bool) returns (sent: Option<AgendamentoCreate>)
      requires Valid()
      modifies this
      ensures Valid()
      ensures var v := ValidateAgendamentoForm(old(nome), old(servico), old(data), old(hora), today);
        if HasValidationErrors(v) then
          sent == None && Draft() == old(Draft()) && errors == v && touched == AllTouched
        else
          sent == Some(old(Draft()))
          && (if onSubmitSucceeds then
                Draft() == AgendamentoCreate("", "", "", "") && errors == NoErrors && touched == map[]
              else
                Draft() == old(Draft()) && errors == NoErrors && touched == AllTouched)
    {
      sent := BeginSubmit(today);
      if sent.Some? {
        FinishSubmit(onSubmitSucceeds);
      }
    }
  }

  /**
   * A change to one field leaves what belongs to the other fields alone:
   * their errors, and every touched entry.
   */
  lemma ChangeKeepsOtherErrors(e: ValidationErrors, f: Field, g: Field, wasTouched: bool)
    requires g != f
    ensures ErrorOf(if wasTouched then ClearError(e, f) else e, g) == ErrorOf(e, g)
  {
  }
}
