/** The appointments page of src/pages/AppointmentsPage.tsx: loading the
    user's appointments and then their pets, naming each appointment's pet,
    refreshing the list after the form is submitted, and asking for
    notification permission when the page mounts. */
module AppointmentsPage {
  import opened Common
  import opened Records
  import AppointmentForm

  const UnknownPet: string := "Unknown Pet"

  /** `pets.find(p => p.id === petId)`. */
  function FindPet(pets: seq<Pet>, petId: string): (r: Option<Pet>)
    ensures r.None? <==> forall k :: 0 <= k < |pets| ==> pets[k].id != petId
    ensures r.Some? ==>
      exists k :: (0 <= k < |pets| && pets[k] == r.value && r.value.id == petId
                   && forall j :: 0 <= j < k ==> pets[j].id != petId)
  {
    if pets == [] then None
    else if pets[0].id == petId then Some(pets[0])
    else
      var r := FindPet(pets[1..], petId);
      if r.Some? then
        var k :| 0 <= k < |pets[1..]| && pets[1..][k] == r.value && r.value.id == petId
          && forall j :: 0 <= j < k ==> pets[1..][j].id != petId;
        assert pets[k + 1] == r.value;
        r
      else r
  }

  /** getPetName: the name of the first pet with the id, or "Unknown Pet". */
  function GetPetName(pets: seq<Pet>, petId: string): (name: string)
    ensures name == UnknownPet
            || exists k :: 0 <= k < |pets| && pets[k].id == petId && pets[k].name == name
  {
    match FindPet(pets, petId)
    case Some(p) => p.name
    case None => UnknownPet
  }

  /** The name shown is that of the first pet with the id; with no such
      pet it is "Unknown Pet". */
  lemma GetPetNameIsFirstMatch(pets: seq<Pet>, petId: string, k: int)
    requires 0 <= k < |pets| && pets[k].id == petId
    requires forall j :: 0 <= j < k ==> pets[j].id != petId
    ensures GetPetName(pets, petId) == pets[k].name
  {
    var r := FindPet(pets, petId);
    var i :| 0 <= i < |pets| && pets[i] == r.value && r.value.id == petId
      && forall j :: 0 <= j < i ==> pets[j].id != petId;
    assert i == k;
  }

  lemma GetPetNameUnknown(pets: seq<Pet>, petId: string)
    requires forall k :: 0 <= k < |pets| ==> pets[k].id != petId
    ensures GetPetName(pets, petId) == UnknownPet
  {
  }

  /** The permission-request effect: it asks whenever the Notification API
      exists and permission is anything but granted, even when the user
      has already denied it. */
  method RequestPermissionOnMount(env: NotificationEnv) returns (requested: bool)
    ensures requested <==> env.supported && env.permission != Granted
  {
    requested := false;
    if env.supported && env.permission != Granted {
      requested := true;
    }
  }

  /** In every state in which this page asks for permission, and when the
      API is missing, the appointment form registers no reminder. */
  lemma NoReminderWhileAsking(env: NotificationEnv, name: string, fireAt: int, now: int)
    ensures env.supported && env.permission != Granted ==>
      AppointmentForm.ReminderFor(env, name, fireAt, now).None?
    ensures !env.supported ==> AppointmentForm.ReminderFor(env, name, fireAt, now).None?
  {
  }

  class AppointmentsPageState {
    var appointments: seq<Appointment>
    var pets: seq<Pet>
    var isModalOpen: bool
    var loading: bool

    constructor ()
      ensures appointments == [] && pets == [] && !isModalOpen && loading
    {
      appointments := [];
      pets := [];
      isModalOpen := false;
      loading := true;
    }

    /** fetchData for the signed-in user (if any), given the outcomes of
        the appointments query and of the pets query, which runs only after
        the appointments query succeeded. Returns the queries issued, in
        order. Without a user nothing is issued and loading stays true;
        otherwise loading ends false, and both lists are replaced only when
        both queries succeed. */
    method FetchData(user: Option<string>, appointmentsResponse: Result<Rows<Appointment>>,
                     petsResponse: Result<Rows<Pet>>)
      returns (issued: seq<Query>)
      modifies this`appointments, this`pets, this`loading
      ensures user.None? ==>
        issued == [] && pets == old(pets) && appointments == old(appointments) && loading == old(loading)
      ensures user.Some? ==>
        && !loading
        && issued == [AppointmentsOfOwner(user.value)] + (if appointmentsResponse.Ok? then [PetsOfOwner(user.value)] else [])
      ensures user.Some? && appointmentsResponse.Ok? && petsResponse.Ok? ==>
        appointments == RowsOrEmpty(appointmentsResponse.value) && pets == RowsOrEmpty(petsResponse.value)
      ensures appointmentsResponse.Err? || petsResponse.Err? ==>
        pets == old(pets) && appointments == old(appointments)
    {
      if user.None? {
        return [];
      }
      issued := [AppointmentsOfOwner(user.value)];
      if appointmentsResponse.Ok? {
        issued := issued + [PetsOfOwner(user.value)];
        if petsResponse.Ok? {
          appointments := RowsOrEmpty(appointmentsResponse.value);
          pets := RowsOrEmpty(petsResponse.value);
        }
      }
      loading := false;
    }

    /** handleFormSubmit, given the outcome of the refetch it starts for a
        signed-in user. The modal always closes; the list is replaced only
        when the refetch returns data (an error or null leaves it). */
    method HandleFormSubmit(user: Option<string>, refetch: Result<Rows<Appointment>>)
      returns (issued: Option<Query>)
      modifies this`isModalOpen, this`appointments
      ensures !isModalOpen
      ensures issued.Some? <==> user.Some?
      ensures user.Some? ==> issued == Some(AppointmentsOfOwner(user.value))
      ensures user.Some? && refetch.Ok? && refetch.value.Some? ==> appointments == refetch.value.value
      ensures user.None? || refetch.Err? || refetch.value.None? ==> appointments == old(appointments)
    {
      isModalOpen := false;
      issued := None;
      if user.Some? {
        issued := Some(AppointmentsOfOwner(user.value));
        if refetch.Ok? && refetch.value.Some? {
          appointments := refetch.value.value;
        }
      }
    }
  }
}
