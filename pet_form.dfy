/** The add/edit pet form of src/components/pet/PetForm.tsx: the profile
    check run when the user is known, the submit handler (guards, the pet
    record it builds, update versus insert, and what happens afterwards),
    the pet-type change handler and the breed options. */
module PetForm {
  import opened Common
  import opened PetCatalog
  import opened Records

  const LoginRequired: string := "You must be logged in to add a pet"
  const StillVerifying: string := "Still verifying your profile. Please wait a moment and try again."
  const ProfileBroken: string := "Your profile is not set up correctly. Please try logging out and back in."
  const ProfileUnverified: string := "Failed to verify your profile. Please try again later."
  const ProfileMissing: string := "Your profile does not exist. Please try logging out and back in again."
  const SaveFailed: string := "Failed to save pet. Please try again."

  /** `s || fallback` on strings: the empty string is falsy. */
  function OrElse(s: string, fallback: string): (r: string)
    ensures s != "" ==> r == s
    ensures s == "" ==> r == fallback
  {
    if s == "" then fallback else s
  }

  /** The `image_url` the record carries: `null`, a photograph, or the
      `undefined` of a lookup that misses (the column is then left out of
      the request). */
  datatype ImageUrl = NoImage | Photo(url: string) | Omitted

  /** `petData`, the record handleSubmit sends. A `None` type is the
      unselected "" value of the type select. */
  datatype PetData = PetData(
    id: string,
    ownerId: string,
    name: string,
    petType: Option<PetType>,
    breed: string,
    weight: Option<real>,
    height: Option<real>,
    age: Option<int>,
    sex: Sex,
    imageUrl: ImageUrl,
    updatedAt: string)

  /** The write handleSubmit issues: an update of the edited pet's row, or
      an insert that adds `created_at`. */
  datatype SaveRequest = Update(rowId: string, data: PetData) | Insert(data: PetData, createdAt: string)

  /** `petType && breed ? PET_IMAGES[petType][breed] : null`. */
  function ImageFor(petType: Option<PetType>, breed: string): (r: ImageUrl)
    ensures r == NoImage <==> petType.None? || breed == ""
  {
    if petType.Some? && breed != "" then
      if breed in PetImages(petType.value) then Photo(PetImages(petType.value)[breed]) else Omitted
    else NoImage
  }

  /** A photograph or a missed lookup needs both a type and a breed; with
      both set, the lookup misses only for a breed outside the type's
      table. */
  lemma ImageNeedsTypeAndBreed(petType: Option<PetType>, breed: string)
    ensures ImageFor(petType, breed) == NoImage <==> petType.None? || breed == ""
    ensures ImageFor(petType, breed).Photo? <==>
      petType.Some? && breed != "" && breed in PetImages(petType.value)
  {
  }

  /** A breed listed for the type always has its photograph. */
  lemma ListedBreedHasPhoto(t: PetType, breed: string)
    requires breed in Breeds(t)
    ensures breed in PetImages(t) && ImageFor(Some(t), breed) == Photo(PetImages(t)[breed])
  {
    ListedBreedHasImage(t, breed);
    ListedBreedNotEmpty(t, breed);
  }

  /** A numeric field: `null` when its text is empty, otherwise the parsed
      text. */
  function NumberField<T>(text: string, parse: string -> T): (r: Option<T>)
    ensures r.None? <==> text == ""
    ensures r.Some? ==> r.value == parse(text)
  {
    if text == "" then None else Some(parse(text))
  }

  /** The record built from the form's fields. */
  function PetDataFor(editing: Option<Pet>, newId: string, userId: string, name: string,
                      petType: Option<PetType>, breed: string, weightText: string, heightText: string,
                      ageText: string, sex: Option<Sex>, nowIso: string,
                      parseDecimal: string -> real, parseWhole: string -> int): (r: PetData)
    ensures editing.Some? && editing.value.id != "" ==> r.id == editing.value.id
    ensures newId != "" ==> r.id != ""
    ensures r.ownerId == userId
  {
    PetData(
      OrElse(if editing.Some? then editing.value.id else "", newId),
      userId,
      name,
      petType,
      breed,
      NumberField(weightText, parseDecimal),
      NumberField(heightText, parseDecimal),
      NumberField(ageText, parseWhole),
      if sex.Some? then sex.value else Unknown,
      ImageFor(petType, breed),
      nowIso)
  }

  /** The record keeps the edited pet's id (unless that id is empty) and
      takes the fresh id otherwise; the owner is the user; the sex defaults
      to Unknown; the age is null exactly when its field is empty. */
  lemma PetDataIdentity(editing: Option<Pet>, newId: string, userId: string, name: string,
                        petType: Option<PetType>, breed: string, weightText: string, heightText: string,
                        ageText: string, sex: Option<Sex>, nowIso: string,
                        parseDecimal: string -> real, parseWhole: string -> int)
    ensures var d := PetDataFor(editing, newId, userId, name, petType, breed, weightText, heightText,
                                ageText, sex, nowIso, parseDecimal, parseWhole);
      && (editing.Some? && editing.value.id != "" ==> d.id == editing.value.id)
      && (editing.None? ==> d.id == newId)
      && d.ownerId == userId
      && (sex.None? ==> d.sex == Unknown)
      && (sex.Some? ==> d.sex == sex.value)
      && (d.age.None? <==> ageText == "")
      && (d.imageUrl == NoImage <==> petType.None? || breed == "")
  {
    ImageNeedsTypeAndBreed(petType, breed);
  }

  /** Editing updates the edited pet's row; creating inserts with
      `created_at`. */
  function SaveRequestFor(editing: Option<Pet>, data: PetData, createdIso: string): (r: SaveRequest)
    ensures r.Update? <==> editing.Some?
    ensures r.Update? ==> r.rowId == editing.value.id
    ensures r.Insert? ==> r.createdAt == createdIso
    ensures r.data == data
  {
    if editing.Some? then Update(editing.value.id, data) else Insert(data, createdIso)
  }

  /** One breed option per entry of `breeds`, in order. */
  function OptionsOf(breeds: seq<string>): (r: seq<SelectOption>)
    ensures |r| == |breeds|
    ensures forall i :: 0 <= i < |r| ==> r[i] == SelectOption(breeds[i], breeds[i])
  {
    if breeds == [] then [] else [SelectOption(breeds[0], breeds[0])] + OptionsOf(breeds[1..])
  }

  /** breedOptions: none without a type, otherwise the type's breeds. */
  function BreedOptions(petType: Option<PetType>): (r: seq<SelectOption>)
    ensures petType.None? ==> r == []
    ensures petType.Some? ==> |r| == |Breeds(petType.value)|
    ensures petType.Some? ==> forall i :: 0 <= i < |r| ==>
      r[i].value == Breeds(petType.value)[i] && r[i].caption == Breeds(petType.value)[i]
  {
    if petType.None? then [] else OptionsOf(Breeds(petType.value))
  }

  /** Every breed the select offers has a photograph: picking a type and
      then one of its options always gives the record an image. */
  lemma OfferedBreedHasPhoto(t: PetType, i: int)
    requires 0 <= i < |BreedOptions(Some(t))|
    ensures BreedOptions(Some(t))[i].value in Breeds(t)
    ensures BreedOptions(Some(t))[i].value in PetImages(t)
    ensures ImageFor(Some(t), BreedOptions(Some(t))[i].value)
            == Photo(PetImages(t)[BreedOptions(Some(t))[i].value])
  {
    var breeds := Breeds(t);
    var b := BreedOptions(Some(t))[i].value;
    assert b == breeds[i];
    ListedBreedHasPhoto(t, b);
  }

  const PetTypeOptions: seq<SelectOption> :=
    [SelectOption("Dog", "Dog"), SelectOption("Cat", "Cat"),
     SelectOption("Parrot", "Parrot"), SelectOption("Turtle", "Turtle")]

  const SexOptions: seq<SelectOption> :=
    [SelectOption("Male", "Male"), SelectOption("Female", "Female"), SelectOption("Unknown", "Unknown")]

  /** The fixed selects offer exactly the enumerations, in their order. */
  lemma FixedOptionsMatchEnums()
    ensures |PetTypeOptions| == |AllPetTypes|
    ensures forall i :: 0 <= i < |PetTypeOptions| ==>
      PetTypeOptions[i].value == PetTypeOptions[i].caption == PetTypeName(AllPetTypes[i])
    ensures |SexOptions| == |AllSexes|
    ensures forall i :: 0 <= i < |SexOptions| ==>
      SexOptions[i].value == SexOptions[i].caption == SexName(AllSexes[i])
  {
  }

  /** The text a numeric field starts from: the value's `toString()`, or
      "" when the pet has none. */
  function InitialText(value: Option<real>, show: real -> string): string
  {
    if value.Some? then show(value.value) else ""
  }

  class PetFormState {
    /** The `pet` prop: the pet being edited, if any. */
    const editing: Option<Pet>
    var petType: Option<PetType>
    var breed: string
    var name: string
    var weight: string
    var height: string
    var age: string
    var sex: Option<Sex>
    var loading: bool
    var error: string
    var profileChecked: bool
    /** Where the form has navigated to, if anywhere. */
    var location: Option<string>

    /** The initial state: the edited pet's values, or empty fields. */
    constructor (pet: Option<Pet>, show: real -> string)
      ensures editing == pet
      ensures pet.None? ==>
        petType.None? && breed == "" && name == "" && weight == "" && height == "" && age == "" && sex.None?
      ensures pet.Some? ==>
        && petType == Some(pet.value.petType) && breed == pet.value.breed && name == pet.value.name
        && weight == InitialText(pet.value.weight, show) && height == InitialText(pet.value.height, show)
        && age == InitialText(if pet.value.age.Some? then Some(pet.value.age.value as real) else None, show)
        && sex == Some(pet.value.sex)
      ensures !loading && error == "" && !profileChecked && location.None?
    {
      editing := pet;
      if pet.Some? {
        var p := pet.value;
        petType := Some(p.petType);
        breed := p.breed;
        name := p.name;
        weight := InitialText(p.weight, show);
        height := InitialText(p.height, show);
        age := InitialText(if p.age.Some? then Some(p.age.value as real) else None, show);
        sex := Some(p.sex);
      } else {
        petType := None;
        breed := "";
        name := "";
        weight := "";
        height := "";
        age := "";
        sex := None;
      }
      loading := false;
      error := "";
      profileChecked := false;
      location := None;
    }

    /** The pet-type select's change handler: the type changes and the
        breed is always cleared. */
    method ChangeType(value: Option<PetType>)
      modifies this`petType, this`breed
      ensures petType == value && breed == ""
      ensures ImageFor(petType, breed) == NoImage
    {
      petType := value;
      breed := "";
    }

    /** checkUserProfile, given the outcome of the profile lookup: `Ok(true)`
        when the row exists, `Ok(false)` when the query reports an error or
        no row, `Err` when the call itself throws. Without a user nothing
        happens. A thrown call leaves the flag unset; otherwise the check is
        complete (even when the profile is missing). */
    method CheckUserProfile(user: Option<string>, lookup: Result<bool>)
      modifies this`error, this`profileChecked
      ensures user.None? ==> error == old(error) && profileChecked == old(profileChecked)
      ensures user.Some? && lookup == Ok(true) ==> error == old(error) && profileChecked
      ensures user.Some? && lookup == Ok(false) ==> error == ProfileBroken && profileChecked
      ensures user.Some? && lookup.Err? ==> error == ProfileUnverified && profileChecked == old(profileChecked)
    {
      if user.None? {
        return;
      }
      if lookup.Err? {
        error := ProfileUnverified;
        return;
      }
      if !lookup.value {
        error := ProfileBroken;
      }
      profileChecked := true;
    }

    /** handleSubmit for a user id (if any), given the outcome of the
        profile lookup (as in CheckUserProfile), the fresh id, the two
        clock readings, the number parsers, the outcome of the write, and
        whether an onSubmit callback was passed. Returns the write it
        issues, if any, and whether onSubmit was called. */
    method Submit(user: Option<string>, profile: Result<bool>, newId: string, nowIso: string, createdIso: string,
                  parseDecimal: string -> real, parseWhole: string -> int, save: Result<()>, hasOnSubmit: bool)
      returns (request: Option<SaveRequest>, calledOnSubmit: bool)
      modifies this`error, this`loading, this`location
      ensures user.None? ==>
        error == LoginRequired && request.None? && !calledOnSubmit
        && loading == old(loading) && location == old(location)
      ensures user.Some? && !profileChecked ==>
        error == StillVerifying && request.None? && !calledOnSubmit
        && loading == old(loading) && location == old(location)
      ensures user.Some? && profileChecked ==> !loading
      ensures user.Some? && profileChecked && profile != Ok(true) ==>
        && request.None? && !calledOnSubmit && location == old(location)
        && error == (if profile.Ok? then ProfileMissing else OrElse(profile.message, SaveFailed))
      ensures user.Some? && profileChecked && profile == Ok(true) ==>
        request == Some(SaveRequestFor(editing,
          PetDataFor(editing, newId, user.value, name, petType, breed, weight, height, age, sex, nowIso,
                     parseDecimal, parseWhole),
          createdIso))
      ensures user.Some? && profileChecked && profile == Ok(true) && save.Ok? ==>
        && error == ""
        && calledOnSubmit == hasOnSubmit
        && location == (if hasOnSubmit then old(location) else Some("/"))
      ensures user.Some? && profileChecked && profile == Ok(true) && save.Err? ==>
        error == OrElse(save.message, SaveFailed) && !calledOnSubmit && location == old(location)
    {
      request := None;
      calledOnSubmit := false;
      if user.None? {
        error := LoginRequired;
        return;
      }
      if !profileChecked {
        error := StillVerifying;
        return;
      }
      loading := true;
      error := "";
      if profile != Ok(true) {
        var message := if profile.Ok? then ProfileMissing else profile.message;
        error := OrElse(message, SaveFailed);
        loading := false;
        return;
      }
      var data := PetDataFor(editing, newId, user.value, name, petType, breed, weight, height, age, sex,
                             nowIso, parseDecimal, parseWhole);
      request := Some(SaveRequestFor(editing, data, createdIso));
      if save.Err? {
        error := OrElse(save.message, SaveFailed);
      } else if hasOnSubmit {
        calledOnSubmit := true;
      } else {
        location := Some("/");
      }
      loading := false;
    }
  }
}
