/** The player registration form: its initial state, the category toggle, the
    stat inputs, and the submit that checks the fields before sending. */
module RegisterPlayer {
  import opened Base
  import opened Calendar
  import opened Text
  import opened Domain

  const PersonalFieldsRequired: string := "Todos los campos de información personal son obligatorios."
  const CategoryRequired: string := "Selecciona al menos una categoría principal."
  const RegistrationFailed: string := "Error al registrar al jugador."
  const DefaultAvatar: string := "https://picsum.photos/seed/newplayer/100/100"

  /** The form fields; the date input's empty value is `None`. */
  datatype PlayerForm = PlayerForm(
    name: string,
    birthDate: Option<Date>,
    document: string,
    address: string,
    phone: string,
    mainCategories: seq<MainCategory>,
    subCategory: SubCategory,
    position: Position,
    avatarUrl: string)

  const InitialForm: PlayerForm := PlayerForm("", None, "", "", "", [], Basico, Setter, DefaultAvatar)
  const InitialStats: PlayerStats := PlayerStats(5, 5, 5, 5)

  /** One entry of the history sent with a new player. */
  datatype StatsEntry = StatsEntry(date: Moment, stats: PlayerStats)

  /** `{ ...formData, statsHistory: [...] }`. */
  datatype NewPlayer = NewPlayer(form: PlayerForm, statsHistory: seq<StatsEntry>)

  predicate PersonalFieldMissing(f: PlayerForm)
  {
    IsBlank(f.name) || f.birthDate.None? || IsBlank(f.document) || IsBlank(f.phone) || IsBlank(f.address)
  }

  /** The two checks of `handleSubmit`, the personal fields first. */
  function ValidationError(f: PlayerForm): (r: Option<string>)
    ensures r == Some(PersonalFieldsRequired) <==> PersonalFieldMissing(f)
    ensures r == Some(CategoryRequired) <==> !PersonalFieldMissing(f) && f.mainCategories == []
    ensures r.None? <==> !PersonalFieldMissing(f) && f.mainCategories != []
  {
    if PersonalFieldMissing(f) then Some(PersonalFieldsRequired)
    else if f.mainCategories == [] then Some(CategoryRequired)
    else None
  }

  /** The blank initial form is rejected for its personal fields. */
  lemma InitialFormRejected()
    ensures ValidationError(InitialForm) == Some(PersonalFieldsRequired)
  {
    assert IsBlank(InitialForm.name);
  }

  /** `parseInt(value, 10) || 0`: a typed whole number is taken as it is, as
      far as a double holds whole numbers exactly (2^53); the handler does not
      clamp it to the input's 0-100 range. */
  lemma StatInputNotClamped(n: nat)
    requires n <= 0x20_0000_0000_0000
    ensures ParseIntOrZero(Dec(n)) == n
  {
    ParseIntOfDec(n);
  }

  lemma NonNumericStatIsZero()
    ensures ParseIntOrZero("abc") == 0 && ParseIntOrZero("") == 0
  {
  }

  class RegistrationForm {
    var form: PlayerForm
    var stats: PlayerStats
    var isLoading: bool
    var error: string

    constructor()
      ensures form == InitialForm && stats == InitialStats && !isLoading && error == ""
    {
      form := InitialForm;
      stats := InitialStats;
      isLoading := false;
      error := "";
    }

    /** `handleMainCategoriesChange`: add the category, or remove it if present. */
    method ToggleMainCategory(c: MainCategory)
      modifies this
      ensures form == old(form).(mainCategories := Toggle(old(form).mainCategories, c))
      ensures stats == old(stats) && isLoading == old(isLoading) && error == old(error)
    {
      form := form.(mainCategories := Toggle(form.mainCategories, c));
    }

    /** `handleStatChange`. */
    method ChangeStat(which: Stat, input: string)
      modifies this
      ensures stats == WithStat(old(stats), which, ParseIntOrZero(input))
      ensures form == old(form) && isLoading == old(isLoading) && error == old(error)
    {
      stats := WithStat(stats, which, ParseIntOrZero(input));
    }

    /** `handleSubmit`. A rejected form sends nothing and shows the check's
        message; otherwise the form and exactly one stats entry stamped `now`
        are sent. `created` is the server's answer: the new player's id (the
        page then navigates to its profile), or `None` when the call threw.
        Once the call was made, loading is off again at the end whatever
        its outcome. */
    method Submit(now: Moment, created: Option<Id>) returns (request: Option<NewPlayer>, navigateTo: Option<string>)
      modifies this
      ensures var failure := ValidationError(old(form));
              && (failure.Some? ==> request.None? && navigateTo.None? && error == failure.value
                                    && isLoading == old(isLoading))
              && (failure.None? ==> request == Some(NewPlayer(old(form), [StatsEntry(now, old(stats))])) && !isLoading)
              && (failure.None? && created.Some? ==> error == "" && navigateTo == Some("/player/" + created.value))
              && (failure.None? && created.None? ==> error == RegistrationFailed && navigateTo.None?)
      ensures form == old(form) && stats == old(stats)
    {
      error := "";
      navigateTo := None;
      var failure := ValidationError(form);
      if failure.Some? {
        error := failure.value;
        request := None;
        return;
      }
      isLoading := true;
      request := Some(NewPlayer(form, [StatsEntry(now, stats)]));
      match created {
        case Some(id) => navigateTo := Some("/player/" + id);
        case None => error := RegistrationFailed;
      }
      isLoading := false;
    }
  }
}
