/** The coach registration form: a blank-field check, the request, and the
    reset after a successful registration. */
module Coaches {
  import opened Base
  import opened Text
  import DataContext

  const FieldsRequired: string := "Todos los campos son obligatorios."
  const DefaultCoachError: string := "Error al registrar al entrenador."
  const DefaultCoachAvatar: string := "https://picsum.photos/seed/newcoach/100/100"
  /** The message of the TypeError thrown by calling an `undefined` `createCoach`. */
  const CreateCoachMissing: string := "createCoach is not a function"

  /** `CoachCreationData`. */
  datatype CoachForm = CoachForm(firstName: string, lastName: string, document: string, avatarUrl: string)

  const InitialCoachForm: CoachForm := CoachForm("", "", "", DefaultCoachAvatar)

  /** The check of `handleSubmit`: the names and the document must all hold
      something besides whitespace. */
  predicate Complete(f: CoachForm)
  {
    !IsBlank(f.firstName) && !IsBlank(f.lastName) && !IsBlank(f.document)
  }

  /** The error `handleSubmit` shows before sending anything: there is none
      exactly when no field trims to the empty string. */
  function CoachError(f: CoachForm): (r: Option<string>)
    ensures r.None? <==> Trim(f.firstName) != "" && Trim(f.lastName) != "" && Trim(f.document) != ""
    ensures r.Some? ==> r.value == FieldsRequired
  {
    BlankIffTrimEmpty(f.firstName);
    BlankIffTrimEmpty(f.lastName);
    BlankIffTrimEmpty(f.document);
    if Complete(f) then None else Some(FieldsRequired)
  }

  /** `err.message || default`: an empty message falls back to the default text. */
  function FailureText(message: string): (r: string)
    ensures r != ""
    ensures message != "" ==> r == message
  {
    if message == "" then DefaultCoachError else message
  }

  /** A form whose names are only spaces is rejected. */
  lemma SpacesRejected(document: string)
    ensures CoachError(CoachForm("  ", "Pérez", document, DefaultCoachAvatar)) == Some(FieldsRequired)
  {
    assert IsBlank("  ");
  }

  /** What `await createCoach(formData)` ends in, given the names the data
      provider supplies: a name it lacks reads as `undefined`, and calling that
      throws a TypeError; otherwise `thrown` is the outcome of the call. */
  function CreateCoachOutcome(provided: set<string>, thrown: Option<string>): Option<string>
  {
    if "createCoach" in provided then thrown else Some(CreateCoachMissing)
  }

  /** The provider the page evidently expects: the declared names plus the
      coach list and `createCoach`. */
  const IntendedNames: set<string> := DataContext.ProvidedNames + {"coaches", "createCoach"}

  /** As written, the provider supplies neither `coaches` nor `createCoach`, so
      every call fails with the TypeError, whose message the page shows. */
  lemma CreateCoachAlwaysFails(thrown: Option<string>)
    ensures "coaches" !in DataContext.ProvidedNames && "createCoach" !in DataContext.ProvidedNames
    ensures CreateCoachOutcome(DataContext.ProvidedNames, thrown) == Some(CreateCoachMissing)
    ensures FailureText(CreateCoachMissing) == CreateCoachMissing
  {
  }

  /** With the intended provider, the outcome is the call's own. */
  lemma IntendedProviderCalls(thrown: Option<string>)
    ensures CreateCoachOutcome(IntendedNames, thrown) == thrown
  {
  }

  class CoachRegistration {
    var form: CoachForm
    var avatarPreview: string
    var isSaving: bool
    var error: string

    constructor()
      ensures form == InitialCoachForm && avatarPreview == DefaultCoachAvatar && !isSaving && error == ""
    {
      form := InitialCoachForm;
      avatarPreview := DefaultCoachAvatar;
      isSaving := false;
      error := "";
    }

    /** `handleSubmit` with a provider that supplies `createCoach` (see
        `IntendedProviderCalls`). A rejected form never reaches `createCoach`;
        `request` is the form handed to it. `thrown` is the message of the
        error `createCoach` threw, if it threw: success
        resets the form and the preview, an error shows its message or the
        default text. Once the call was
        made, saving is off again at the end whatever its outcome. */
    method Submit(thrown: Option<string>) returns (request: Option<CoachForm>)
      modifies this
      ensures !Complete(old(form)) ==>
                request.None? && error == FieldsRequired && isSaving == old(isSaving)
                && form == old(form) && avatarPreview == old(avatarPreview)
      ensures Complete(old(form)) ==> request == Some(old(form)) && !isSaving
      ensures Complete(old(form)) && thrown.None? ==>
                form == InitialCoachForm && avatarPreview == DefaultCoachAvatar && error == ""
      ensures Complete(old(form)) && thrown.Some? ==>
                error == FailureText(thrown.value) && form == old(form) && avatarPreview == old(avatarPreview)
    {
      error := "";
      if !Complete(form) {
        error := FieldsRequired;
        request := None;
        return;
      }
      isSaving := true;
      request := Some(form);
      if thrown.None? {
        form := InitialCoachForm;
        avatarPreview := InitialCoachForm.avatarUrl;
      } else {
        error := FailureText(thrown.value);
      }
      isSaving := false;
    }

    /** `handleSubmit` against the data provider as written: a complete form
        always ends in the TypeError's message and is never reset. */
    method SubmitAsWritten() returns (request: Option<CoachForm>)
      modifies this
      ensures !Complete(old(form)) ==>
                request.None? && error == FieldsRequired && form == old(form) && avatarPreview == old(avatarPreview)
      ensures Complete(old(form)) ==>
                error == CreateCoachMissing && form == old(form) && avatarPreview == old(avatarPreview) && !isSaving
    {
      CreateCoachAlwaysFails(None);
      request := Submit(CreateCoachOutcome(DataContext.ProvidedNames, None));
    }
  }
}
