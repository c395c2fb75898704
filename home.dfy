/** The home page of src/pages/HomePage.tsx: loading the user's pets and
    appointments one after the other, and counting each pet's
    appointments for its card. */
module HomePage {
  import opened Common
  import opened Records

  /** countAppointmentsForPet: the number of appointments for `petId`. */
  function CountForPet(apts: seq<Appointment>, petId: string): (n: nat)
    ensures n <= |apts|
    ensures n == 0 <==> forall k :: 0 <= k < |apts| ==> apts[k].petId != petId
  {
    if apts == [] then 0
    else (if apts[0].petId == petId then 1 else 0) + CountForPet(apts[1..], petId)
  }

  /** The number of appointments whose pet is one of `ids`. */
  function CountForPets(apts: seq<Appointment>, ids: set<string>): (n: nat)
    ensures n <= |apts|
  {
    if apts == [] then 0
    else (if apts[0].petId in ids then 1 else 0) + CountForPets(apts[1..], ids)
  }

  lemma {:induction false} CountForPetsAddOne(apts: seq<Appointment>, ids: set<string>, id: string)
    requires id !in ids
    ensures CountForPets(apts, ids + {id}) == CountForPets(apts, ids) + CountForPet(apts, id)
  {
    if apts != [] {
      CountForPetsAddOne(apts[1..], ids, id);
    }
  }

  /** The counts shown on the cards of pets with distinct ids. */
  function SumOfCounts(apts: seq<Appointment>, petIds: seq<string>): nat
  {
    if petIds == [] then 0 else CountForPet(apts, petIds[0]) + SumOfCounts(apts, petIds[1..])
  }

  /** Cards of pets with distinct ids count every appointment at most
      once: together they count the appointments of those pets, which
      never exceeds the number of appointments. */
  lemma {:induction false} CardCountsNeverExceedTotal(apts: seq<Appointment>, petIds: seq<string>)
    requires forall i, j :: 0 <= i < j < |petIds| ==> petIds[i] != petIds[j]
    ensures SumOfCounts(apts, petIds) == CountForPets(apts, set id | id in petIds)
    ensures SumOfCounts(apts, petIds) <= |apts|
  {
    if petIds == [] {
      assert (set id | id in petIds) == {};
      EmptyCount(apts);
    } else {
      var rest := petIds[1..];
      CardCountsNeverExceedTotal(apts, rest);
      var ids := set id | id in rest;
      assert petIds[0] !in ids by {
        forall k | 0 <= k < |rest| ensures rest[k] != petIds[0] {
          assert rest[k] == petIds[k + 1];
        }
      }
      CountForPetsAddOne(apts, ids, petIds[0]);
      assert (set id | id in petIds) == ids + {petIds[0]};
    }
  }

  lemma {:induction false} EmptyCount(apts: seq<Appointment>)
    ensures CountForPets(apts, {}) == 0
  {
    if apts != [] {
      EmptyCount(apts[1..]);
    }
  }

  class HomePageState {
    var pets: seq<Pet>
    var appointments: seq<Appointment>
    var loading: bool

    constructor ()
      ensures pets == [] && appointments == [] && loading
    {
      pets := [];
      appointments := [];
      loading := true;
    }

    /** fetchData for the signed-in user (if any), given the outcomes of the
        pets query and the appointments query, which runs only after the
        pets query succeeded. Returns the queries issued, in order. Without
        a user nothing is issued and loading stays true; otherwise loading
        ends false, and both lists are replaced only when both queries
        succeed (a null result read as none). */
    method FetchData(user: Option<string>, petsResponse: Result<Rows<Pet>>,
                     appointmentsResponse: Result<Rows<Appointment>>)
      returns (issued: seq<Query>)
      modifies this
      ensures user.None? ==>
        issued == [] && pets == old(pets) && appointments == old(appointments) && loading == old(loading)
      ensures user.Some? ==>
        && !loading
        && issued == [PetsOfOwner(user.value)] + (if petsResponse.Ok? then [AppointmentsOfOwner(user.value)] else [])
      ensures user.Some? && petsResponse.Ok? && appointmentsResponse.Ok? ==>
        pets == RowsOrEmpty(petsResponse.value) && appointments == RowsOrEmpty(appointmentsResponse.value)
      ensures petsResponse.Err? || appointmentsResponse.Err? ==>
        pets == old(pets) && appointments == old(appointments)
    {
      if user.None? {
        return [];
      }
      issued := [PetsOfOwner(user.value)];
      if petsResponse.Ok? {
        issued := issued + [AppointmentsOfOwner(user.value)];
        if appointmentsResponse.Ok? {
          pets := RowsOrEmpty(petsResponse.value);
          appointments := RowsOrEmpty(appointmentsResponse.value);
        }
      }
      loading := false;
    }
  }
}
