/** The pet profile page of src/pages/PetProfilePage.tsx: loading the pet
    and its appointments, deleting one appointment, deleting the pet (its
    appointments first), and the appointment-type chart: classification by
    keyword, the histogram the reduce builds, the pie data and its colours. */
module PetProfile {
  import opened Common
  import opened Records

  const LoadFailed: string := "Failed to load pet data"
  const DeletePetFailed: string := "Failed to delete pet"
  const DeleteAppointmentFailed: string := "Failed to delete appointment"

  // ---------------------------------------------------------------------
  // Classification

  datatype Category = Checkup | Vaccination | Grooming | Other

  const AllCategories: seq<Category> := [Checkup, Vaccination, Grooming, Other]

  /** The key the reduce files an appointment under. */
  function CategoryName(c: Category): string
  {
    match c
    case Checkup => "Checkup"
    case Vaccination => "Vaccination"
    case Grooming => "Grooming"
    case Other => "Other"
  }

  /** The category of an appointment name: the first keyword found in the
      lower-cased name decides. */
  function Classify(name: string): (c: Category)
    ensures c == Other <==>
      !Contains(ToLower(name), "checkup") && !Contains(ToLower(name), "vaccine")
      && !Contains(ToLower(name), "grooming")
  {
    var lower := ToLower(name);
    if Contains(lower, "checkup") then Checkup
    else if Contains(lower, "vaccine") then Vaccination
    else if Contains(lower, "grooming") then Grooming
    else Other
  }

  /** "checkup" beats "vaccine", which beats "grooming"; a name with none of
      them is Other. */
  lemma ClassifyPrecedence(name: string)
    ensures var lower := ToLower(name);
      && (Classify(name) == Checkup <==> Contains(lower, "checkup"))
      && (Classify(name) == Vaccination <==> !Contains(lower, "checkup") && Contains(lower, "vaccine"))
      && (Classify(name) == Grooming <==>
            !Contains(lower, "checkup") && !Contains(lower, "vaccine") && Contains(lower, "grooming"))
      && (Classify(name) == Other <==>
            !Contains(lower, "checkup") && !Contains(lower, "vaccine") && !Contains(lower, "grooming"))
  {
  }

  /** Classification ignores the case the name is written in. */
  lemma ClassifyIgnoresCase(name: string)
    ensures Classify(ToUpper(name)) == Classify(name)
    ensures Classify(ToLower(name)) == Classify(name)
  {
    LowerIgnoresCase(name);
  }

  // ---------------------------------------------------------------------
  // The histogram

  /** The number of appointments filed under `c`. */
  function CountOf(apts: seq<Appointment>, c: Category): (n: nat)
    ensures n <= |apts|
  {
    if apts == [] then 0
    else (if Classify(apts[0].name) == c then 1 else 0) + CountOf(apts[1..], c)
  }

  lemma {:induction false} CountOfAppend(apts: seq<Appointment>, a: Appointment, c: Category)
    ensures CountOf(apts + [a], c) == CountOf(apts, c) + (if Classify(a.name) == c then 1 else 0)
  {
    if apts != [] {
      assert (apts + [a])[1..] == apts[1..] + [a];
      CountOfAppend(apts[1..], a, c);
    }
  }

  /** Every appointment is filed under exactly one category, so the four
      counts add up to the number of appointments. */
  lemma {:induction false} CountsPartition(apts: seq<Appointment>)
    ensures CountOf(apts, Checkup) + CountOf(apts, Vaccination) + CountOf(apts, Grooming) + CountOf(apts, Other) == |apts|
  {
    if apts != [] {
      CountsPartition(apts[1..]);
    }
  }

  /** The keys of the accumulator object, in the order they were first
      assigned (the order Object.entries lists them in). */
  function KeyOrder(apts: seq<Appointment>): (keys: seq<Category>)
    ensures |keys| <= |apts|
    ensures apts != [] ==> |keys| >= 1 && keys[0] == Classify(apts[0].name)
  {
    if apts == [] then []
    else
      var keys := KeyOrder(apts[..|apts| - 1]);
      var c := Classify(apts[|apts| - 1].name);
      if c in keys then keys else keys + [c]
  }

  /** The keys are distinct and are exactly the categories that occur. */
  lemma {:induction false} KeyOrderIsPresentCategories(apts: seq<Appointment>)
    ensures forall i, j :: 0 <= i < j < |KeyOrder(apts)| ==> KeyOrder(apts)[i] != KeyOrder(apts)[j]
    ensures forall c :: c in KeyOrder(apts) <==> CountOf(apts, c) > 0
  {
    if apts != [] {
      var init := apts[..|apts| - 1];
      var a := apts[|apts| - 1];
      KeyOrderIsPresentCategories(init);
      assert apts == init + [a];
      forall c ensures CountOf(apts, c) == CountOf(init, c) + (if Classify(a.name) == c then 1 else 0) {
        CountOfAppend(init, a, c);
      }
    }
  }

  /** The sum of a histogram's counts over the four categories, a missing
      key counting zero. */
  function HistogramTotal(counts: map<Category, nat>): nat
  {
    (if Checkup in counts then counts[Checkup] else 0)
    + (if Vaccination in counts then counts[Vaccination] else 0)
    + (if Grooming in counts then counts[Grooming] else 0)
    + (if Other in counts then counts[Other] else 0)
  }

  /** `keys` and `counts` are the accumulator object the reduce builds from
      `apts`: its keys in insertion order, and the count under each key. */
  ghost predicate IsHistogram(apts: seq<Appointment>, keys: seq<Category>, counts: map<Category, nat>)
  {
    && keys == KeyOrder(apts)
    && (forall c :: c in counts <==> c in keys)
    && (forall c :: c in counts ==> counts[c] == CountOf(apts, c))
  }

  /** One step of the reduce: `acc[type] = (acc[type] || 0) + 1`. */
  lemma HistogramStep(apts: seq<Appointment>, a: Appointment, keys: seq<Category>, counts: map<Category, nat>)
    requires IsHistogram(apts, keys, counts)
    ensures IsHistogram(apts + [a],
      if Classify(a.name) in counts then keys else keys + [Classify(a.name)],
      counts[Classify(a.name) := (if Classify(a.name) in counts then counts[Classify(a.name)] else 0) + 1])
  {
    var t := Classify(a.name);
    var s := apts + [a];
    var keys' := if t in counts then keys else keys + [t];
    var counts' := counts[t := (if t in counts then counts[t] else 0) + 1];
    KeyOrderAppend(apts, a);
    assert KeyOrder(s) == keys';
    assert forall c :: c in counts' <==> c in keys';
    forall c | c in counts' ensures counts'[c] == CountOf(s, c) {
      CountOfAppend(apts, a, c);
      if c !in counts {
        KeyOrderIsPresentCategories(apts);
        assert CountOf(apts, c) == 0;
      }
    }
  }

  /** Appending an appointment adds its category to the keys, unless it is
      already there. */
  lemma KeyOrderAppend(apts: seq<Appointment>, a: Appointment)
    ensures KeyOrder(apts + [a]) ==
      if Classify(a.name) in KeyOrder(apts) then KeyOrder(apts) else KeyOrder(apts) + [Classify(a.name)]
  {
    var s := apts + [a];
    assert s[..|s| - 1] == apts && s[|s| - 1] == a;
  }

  /** What a histogram says: its keys are the categories that occur, each
      with a count of at least one, and the counts add up to the number of
      appointments. */
  lemma HistogramMeaning(apts: seq<Appointment>, keys: seq<Category>, counts: map<Category, nat>)
    requires IsHistogram(apts, keys, counts)
    ensures forall c :: c in counts <==> CountOf(apts, c) > 0
    ensures forall c :: c in counts ==> counts[c] >= 1
    ensures HistogramTotal(counts) == |apts|
  {
    KeyOrderIsPresentCategories(apts);
    CountsPartition(apts);
  }

  /** appointmentTypes: the reduce over the appointments, which bumps
      `acc[type]` (starting from `acc[type] || 0`). `keys` records the order
      in which keys were added to the accumulator object. Every key is a
      category that occurs, with its count (so at least 1); the counts add
      up to the number of appointments. */
  method AppointmentTypes(apts: seq<Appointment>) returns (keys: seq<Category>, counts: map<Category, nat>)
    ensures IsHistogram(apts, keys, counts)
    ensures forall c :: c in counts <==> CountOf(apts, c) > 0
    ensures forall c :: c in counts ==> counts[c] == CountOf(apts, c) >= 1
    ensures HistogramTotal(counts) == |apts|
  {
    keys := [];
    counts := map[];
    var i := 0;
    while i < |apts|
      invariant 0 <= i <= |apts|
      invariant IsHistogram(apts[..i], keys, counts)
    {
      var t := Classify(apts[i].name);
      PrefixGrows(apts, i);
      HistogramStep(apts[..i], apts[i], keys, counts);
      var previous := if t in counts then counts[t] else 0;
      if t !in counts {
        keys := keys + [t];
      }
      counts := counts[t := previous + 1];
      i := i + 1;
    }
    assert apts[..i] == apts;
    HistogramMeaning(apts, keys, counts);
  }

  lemma PrefixGrows<T>(s: seq<T>, i: int)
    requires 0 <= i < |s|
    ensures s[..i + 1] == s[..i] + [s[i]]
  {
  }

  // ---------------------------------------------------------------------
  // Pie chart

  datatype Slice = Slice(name: string, value: nat)

  /** pieChartData: one slice per accumulator key, in key order, named by
      the category and valued by its count. */
  function PieChartData(keys: seq<Category>, counts: map<Category, nat>): (r: seq<Slice>)
    requires forall c :: c in keys ==> c in counts
    ensures |r| == |keys|
    ensures forall i :: 0 <= i < |keys| ==> r[i] == Slice(CategoryName(keys[i]), counts[keys[i]])
  {
    if keys == [] then []
    else [Slice(CategoryName(keys[0]), counts[keys[0]])] + PieChartData(keys[1..], counts)
  }

  lemma CategoryNameInjective(c: Category, d: Category)
    ensures CategoryName(c) == CategoryName(d) <==> c == d
  {
  }

  /** A category that occurs has a slice: the one at its position among
      the keys. */
  lemma {:induction false} OccurringCategoryHasSlice(apts: seq<Appointment>, keys: seq<Category>, counts: map<Category, nat>, c: Category)
    requires IsHistogram(apts, keys, counts) && CountOf(apts, c) > 0
    ensures exists i :: 0 <= i < |keys| && keys[i] == c && PieChartData(keys, counts)[i].name == CategoryName(c)
  {
    KeyOrderIsPresentCategories(apts);
    assert c in keys;
    var i :| 0 <= i < |keys| && keys[i] == c;
    assert PieChartData(keys, counts)[i].name == CategoryName(c);
  }

  /** Every slice is named after a category that occurs. */
  lemma {:induction false} SliceCategoryOccurs(apts: seq<Appointment>, keys: seq<Category>, counts: map<Category, nat>, c: Category, i: int)
    requires IsHistogram(apts, keys, counts)
    requires 0 <= i < |keys| && PieChartData(keys, counts)[i].name == CategoryName(c)
    ensures keys[i] == c && CountOf(apts, c) > 0
  {
    CategoryNameInjective(keys[i], c);
    KeyOrderIsPresentCategories(apts);
    assert keys[i] in KeyOrder(apts);
  }

  /** For the histogram of some appointments, the pie has a slice named
      after a category exactly when that category occurs. */
  lemma {:induction false} PieChartCoversCategories(apts: seq<Appointment>, keys: seq<Category>, counts: map<Category, nat>, c: Category)
    requires IsHistogram(apts, keys, counts)
    ensures var pie := PieChartData(keys, counts);
      CountOf(apts, c) > 0 <==> exists i :: 0 <= i < |pie| && pie[i].name == CategoryName(c)
  {
    var pie := PieChartData(keys, counts);
    if CountOf(apts, c) > 0 {
      OccurringCategoryHasSlice(apts, keys, counts, c);
    } else {
      forall i | 0 <= i < |pie| ensures pie[i].name != CategoryName(c) {
        if pie[i].name == CategoryName(c) {
          SliceCategoryOccurs(apts, keys, counts, c, i);
        }
      }
    }
  }

  /** No two slices of the pie share a name, and every slice is valued by
      its category's count, which is at least one. */
  lemma PieChartSlices(apts: seq<Appointment>, keys: seq<Category>, counts: map<Category, nat>)
    requires IsHistogram(apts, keys, counts)
    ensures var pie := PieChartData(keys, counts);
      forall i, j :: 0 <= i < j < |pie| ==> pie[i].name != pie[j].name
    ensures var pie := PieChartData(keys, counts);
      forall i :: 0 <= i < |pie| ==> pie[i].value == CountOf(apts, keys[i]) >= 1
  {
    var pie := PieChartData(keys, counts);
    KeyOrderIsPresentCategories(apts);
    HistogramMeaning(apts, keys, counts);
    forall i, j | 0 <= i < j < |pie| ensures pie[i].name != pie[j].name {
      CategoryNameInjective(keys[i], keys[j]);
    }
  }

  const Colors: seq<string> := ["#4CAF50", "#2196F3", "#FF9800", "#9C27B0"]

  /** The fill of slice `i`: COLORS[i % COLORS.length]. */
  function SliceColor(i: nat): (color: string)
    ensures color in Colors
  {
    Colors[i % |Colors|]
  }

  /** The index is always in range; colours repeat every four slices, and
      four consecutive slices get four different colours. */
  lemma SliceColorCycles(i: nat)
    ensures 0 <= i % |Colors| < |Colors|
    ensures SliceColor(i + 4) == SliceColor(i)
    ensures forall j :: i < j < i + 4 ==> SliceColor(i) != SliceColor(j)
  {
    forall j | i < j < i + 4 ensures SliceColor(i) != SliceColor(j) {
      assert i % 4 != j % 4;
    }
  }

  // ---------------------------------------------------------------------
  // Deleting one appointment

  /** `appointments.filter(apt => apt.id !== appointmentId)`. */
  function RemoveById(apts: seq<Appointment>, id: string): (r: seq<Appointment>)
    ensures forall k :: 0 <= k < |r| ==> r[k].id != id && r[k] in apts
    ensures forall k :: 0 <= k < |apts| && apts[k].id != id ==> apts[k] in r
  {
    if apts == [] then []
    else if apts[0].id == id then RemoveById(apts[1..], id)
    else [apts[0]] + RemoveById(apts[1..], id)
  }

  /** `r` lists some of the elements of `s`, in their order in `s`. */
  ghost predicate IsSubsequence<T>(r: seq<T>, s: seq<T>)
  {
    if r == [] then true
    else if s == [] then false
    else if r[0] == s[0] then IsSubsequence(r[1..], s[1..])
    else IsSubsequence(r, s[1..])
  }

  function CountId(apts: seq<Appointment>, id: string): nat
  {
    if apts == [] then 0 else (if apts[0].id == id then 1 else 0) + CountId(apts[1..], id)
  }

  /** Deleting keeps every other appointment, once each and in order: the
      result is a subsequence of the list that drops exactly the entries
      with the id. */
  lemma {:induction false} RemoveByIdKeepsOrder(apts: seq<Appointment>, id: string)
    ensures IsSubsequence(RemoveById(apts, id), apts)
    ensures |RemoveById(apts, id)| == |apts| - CountId(apts, id)
  {
    if apts != [] {
      RemoveByIdKeepsOrder(apts[1..], id);
      var rest := RemoveById(apts[1..], id);
      if apts[0].id == id {
        SubsequenceOfTail(rest, apts);
      } else {
        assert ([apts[0]] + rest)[1..] == rest;
      }
    }
  }

  lemma {:induction false} SubsequenceOfTail<T>(r: seq<T>, s: seq<T>)
    requires s != [] && IsSubsequence(r, s[1..])
    ensures IsSubsequence(r, s)
    decreases |s|, 0
  {
    if r != [] && r[0] == s[0] {
      SubsequenceDropHead(r, s[1..]);
    }
  }

  lemma {:induction false} SubsequenceDropHead<T>(r: seq<T>, s: seq<T>)
    requires r != [] && IsSubsequence(r, s)
    ensures IsSubsequence(r[1..], s)
    decreases |s|, 1
  {
    assert s != [];
    if r[0] == s[0] {
      if r[1..] != [] {
        SubsequenceDropHead(r[1..], s[1..]);
        SubsequenceOfTail(r[1..], s);
      }
    } else {
      SubsequenceDropHead(r, s[1..]);
      SubsequenceOfTail(r[1..], s);
    }
  }

  // ---------------------------------------------------------------------
  // The page

  /** The backend deletions handleDeletePet issues, in order. */
  datatype Deletion = AppointmentsOfPet(petId: string) | PetRow(petId: string)

  class PetProfileState {
    var pet: Option<Pet>
    var appointments: seq<Appointment>
    var loading: bool
    var error: string
    /** Where the page has navigated to, if anywhere. */
    var location: Option<string>

    constructor ()
      ensures pet.None? && appointments == [] && loading && error == "" && location.None?
    {
      pet := None;
      appointments := [];
      loading := true;
      error := "";
      location := None;
    }

    /** fetchData for the route's id, given the outcomes of the two queries
        it runs together. Without an id it returns before its try block, so
        loading is never cleared. Otherwise loading ends false; the pet and
        its appointments (null read as none) are replaced only when both
        queries succeed, and a failure of either sets the load error. */
    method FetchData(id: Option<string>, petResponse: Result<Pet>, appointmentsResponse: Result<Rows<Appointment>>)
      modifies this`pet, this`appointments, this`error, this`loading
      ensures id.None? ==>
        pet == old(pet) && appointments == old(appointments) && error == old(error) && loading == old(loading)
      ensures id.Some? ==> !loading
      ensures id.Some? && petResponse.Ok? && appointmentsResponse.Ok? ==>
        && pet == Some(petResponse.value)
        && appointments == RowsOrEmpty(appointmentsResponse.value)
        && error == old(error)
      ensures id.Some? && (petResponse.Err? || appointmentsResponse.Err?) ==>
        pet == old(pet) && appointments == old(appointments) && error == LoadFailed
    {
      if id.None? {
        return;
      }
      if petResponse.Err? || appointmentsResponse.Err? {
        error := LoadFailed;
      } else {
        pet := Some(petResponse.value);
        appointments := RowsOrEmpty(appointmentsResponse.value);
      }
      loading := false;
    }

    /** handleDeleteAppointment: on success the appointment disappears from
        the list, which keeps every other entry in order; on failure the
        list stays and the error is set. */
    method DeleteAppointment(appointmentId: string, outcome: Result<()>)
      modifies this`appointments, this`error
      ensures outcome.Ok? ==> appointments == RemoveById(old(appointments), appointmentId) && error == old(error)
      ensures outcome.Err? ==> appointments == old(appointments) && error == DeleteAppointmentFailed
    {
      if outcome.Err? {
        error := DeleteAppointmentFailed;
      } else {
        appointments := RemoveById(appointments, appointmentId);
      }
    }

    /** handleDeletePet, given the outcomes of deleting the pet's
        appointments and of deleting the pet row. With no pet loaded nothing
        happens. The appointments go first; the pet row is deleted only if
        that succeeded; the page navigates to "/" only if both succeeded,
        and otherwise reports the failure. */
    method DeletePet(appointmentsDeletion: Result<()>, petDeletion: Result<()>) returns (issued: seq<Deletion>)
      modifies this`error, this`location
      ensures pet.None? ==> issued == [] && error == old(error) && location == old(location)
      ensures pet.Some? ==>
        && |issued| >= 1 && issued[0] == AppointmentsOfPet(pet.value.id)
        && (appointmentsDeletion.Ok? <==> |issued| == 2)
        && (|issued| == 2 ==> issued[1] == PetRow(pet.value.id))
        && (appointmentsDeletion.Ok? && petDeletion.Ok? ==> location == Some("/") && error == old(error))
        && (appointmentsDeletion.Err? || petDeletion.Err? ==> location == old(location) && error == DeletePetFailed)
    {
      if pet.None? {
        return [];
      }
      var id := pet.value.id;
      issued := [AppointmentsOfPet(id)];
      if appointmentsDeletion.Err? {
        error := DeletePetFailed;
        return;
      }
      issued := issued + [PetRow(id)];
      if petDeletion.Err? {
        error := DeletePetFailed;
        return;
      }
      location := Some("/");
    }
  }
}
