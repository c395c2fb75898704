/** The rows of the two tables the pages read and write
    (src/types/supabase.ts). Column names are written in camel case;
    timestamps are the ISO strings the backend stores. */
module Records {
  import opened Common
  import opened PetCatalog

  /** A row of `pets`. Weight and height are decimal numbers in the source. */
  datatype Pet = Pet(
    id: string,
    ownerId: string,
    name: string,
    petType: PetType,
    breed: string,
    weight: Option<real>,
    height: Option<real>,
    age: Option<int>,
    sex: Sex,
    imageUrl: Option<string>,
    createdAt: string,
    updatedAt: string)

  /** A row of `appointments`. */
  datatype Appointment = Appointment(
    id: string,
    ownerId: string,
    petId: string,
    name: string,
    description: Option<string>,
    date: string,
    time: string,
    createdAt: string,
    updatedAt: string)

  /** The `data` of a list query: `null` (None) or the rows. */
  type Rows<T> = Option<seq<T>>

  /** A list query the pages issue, by the owner it filters on. */
  datatype Query = PetsOfOwner(ownerId: string) | AppointmentsOfOwner(ownerId: string)

  /** `data || []`. */
  function RowsOrEmpty<T>(data: Rows<T>): seq<T>
  {
    match data
    case Some(rows) => rows
    case None => []
  }
}
