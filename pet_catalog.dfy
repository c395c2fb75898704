/** The pet vocabulary of the application: the four pet types, the three
    sexes, the breed list of every type and the stock photograph of every
    breed (src/types/pet.ts). */
module PetCatalog {

  datatype PetType = Dog | Cat | Parrot | Turtle
  datatype Sex = Male | Female | Unknown

  const AllPetTypes: seq<PetType> := [Dog, Cat, Parrot, Turtle]
  const AllSexes: seq<Sex> := [Male, Female, Unknown]

  /** The string the database and the form use for a pet type. */
  function PetTypeName(t: PetType): string
  {
    match t
    case Dog => "Dog"
    case Cat => "Cat"
    case Parrot => "Parrot"
    case Turtle => "Turtle"
  }

  function SexName(s: Sex): string
  {
    match s
    case Male => "Male"
    case Female => "Female"
    case Unknown => "Unknown"
  }

  /** BREEDS[t], in the order the breed select lists them. */
  function Breeds(t: PetType): seq<string>
  {
    match t
    case Dog => [
      "Labrador Retriever", "German Shepherd", "Golden Retriever", "Bulldog",
      "Beagle", "Poodle", "Rottweiler", "Yorkshire Terrier", "Boxer",
      "Dachshund", "Shih Tzu", "Mixed/Other"]
    case Cat => [
      "Persian", "Maine Coon", "Siamese", "Ragdoll", "Bengal", "Sphynx",
      "British Shorthair", "Abyssinian", "Scottish Fold", "Bombay",
      "Siberian", "Mixed/Other"]
    case Parrot => [
      "African Grey", "Cockatoo", "Macaw", "Cockatiel", "Budgerigar",
      "Conure", "Lovebird", "Amazon", "Eclectus", "Pionus", "Lory",
      "Mixed/Other"]
    case Turtle => [
      "Red-Eared Slider", "Box Turtle", "Painted Turtle", "Map Turtle",
      "Mud Turtle", "Musk Turtle", "Spotted Turtle", "Wood Turtle",
      "Softshell Turtle", "Snapping Turtle", "Cooter", "Mixed/Other"]
  }

  const PexelsPrefix := "https://images.pexels.com/photos/"

  /** PET_IMAGES[t]: breed name to photograph URL. */
  function PetImages(t: PetType): map<string, string>
  {
    match t
    case Dog => map[
      "Labrador Retriever" := PexelsPrefix + "1118447/pexels-photo-1118447.jpeg",
      "German Shepherd" := PexelsPrefix + "333083/pexels-photo-333083.jpeg",
      "Golden Retriever" := PexelsPrefix + "1490908/pexels-photo-1490908.jpeg",
      "Bulldog" := PexelsPrefix + "686094/pexels-photo-686094.jpeg",
      "Beagle" := PexelsPrefix + "39317/chihuahua-dog-puppy-cute-39317.jpeg",
      "Poodle" := PexelsPrefix + "1458916/pexels-photo-1458916.jpeg",
      "Rottweiler" := PexelsPrefix + "2695827/pexels-photo-2695827.jpeg",
      "Yorkshire Terrier" := PexelsPrefix + "1458925/pexels-photo-1458925.jpeg",
      "Boxer" := PexelsPrefix + "1294062/pexels-photo-1294062.jpeg",
      "Dachshund" := PexelsPrefix + "1139794/pexels-photo-1139794.jpeg",
      "Shih Tzu" := PexelsPrefix + "1458925/pexels-photo-1458925.jpeg",
      "Mixed/Other" := PexelsPrefix + "2607544/pexels-photo-2607544.jpeg"]
    case Cat => map[
      "Persian" := PexelsPrefix + "1056251/pexels-photo-1056251.jpeg",
      "Maine Coon" := PexelsPrefix + "1170986/pexels-photo-1170986.jpeg",
      "Siamese" := PexelsPrefix + "1046359/pexels-photo-1046359.jpeg",
      "Ragdoll" := PexelsPrefix + "1056251/pexels-photo-1056251.jpeg",
      "Bengal" := PexelsPrefix + "1643457/pexels-photo-1643457.jpeg",
      "Sphynx" := PexelsPrefix + "991831/pexels-photo-991831.jpeg",
      "British Shorthair" := PexelsPrefix + "177809/pexels-photo-177809.jpeg",
      "Abyssinian" := PexelsPrefix + "617278/pexels-photo-617278.jpeg",
      "Scottish Fold" := PexelsPrefix + "1056251/pexels-photo-1056251.jpeg",
      "Bombay" := PexelsPrefix + "1521306/pexels-photo-1521306.jpeg",
      "Siberian" := PexelsPrefix + "127028/pexels-photo-127028.jpeg",
      "Mixed/Other" := PexelsPrefix + "45201/kitty-cat-kitten-pet-45201.jpeg"]
    case Parrot => map[
      "African Grey" := PexelsPrefix + "56733/pexels-photo-56733.jpeg",
      "Cockatoo" := PexelsPrefix + "97533/pexels-photo-97533.jpeg",
      "Macaw" := PexelsPrefix + "1661179/pexels-photo-1661179.jpeg",
      "Cockatiel" := PexelsPrefix + "97533/pexels-photo-97533.jpeg",
      "Budgerigar" := PexelsPrefix + "97533/pexels-photo-97533.jpeg",
      "Conure" := PexelsPrefix + "97533/pexels-photo-97533.jpeg",
      "Lovebird" := PexelsPrefix + "97533/pexels-photo-97533.jpeg",
      "Amazon" := PexelsPrefix + "97533/pexels-photo-97533.jpeg",
      "Eclectus" := PexelsPrefix + "97533/pexels-photo-97533.jpeg",
      "Pionus" := PexelsPrefix + "97533/pexels-photo-97533.jpeg",
      "Lory" := PexelsPrefix + "97533/pexels-photo-97533.jpeg",
      "Mixed/Other" := PexelsPrefix + "97533/pexels-photo-97533.jpeg"]
    case Turtle => map[
      "Red-Eared Slider" := TurtlePhoto,
      "Box Turtle" := TurtlePhoto,
      "Painted Turtle" := TurtlePhoto,
      "Map Turtle" := TurtlePhoto,
      "Mud Turtle" := TurtlePhoto,
      "Musk Turtle" := TurtlePhoto,
      "Spotted Turtle" := TurtlePhoto,
      "Wood Turtle" := TurtlePhoto,
      "Softshell Turtle" := TurtlePhoto,
      "Snapping Turtle" := TurtlePhoto,
      "Cooter" := TurtlePhoto,
      "Mixed/Other" := TurtlePhoto]
  }

  /** Every turtle breed shares one photograph. */
  const TurtlePhoto := PexelsPrefix + "3198041/pexels-photo-3198041.jpeg"

  /** The enums are exactly four pet types and three sexes, and their
      names are pairwise distinct. */
  lemma EnumsAreClosed()
    ensures forall t: PetType :: t in AllPetTypes
    ensures |AllPetTypes| == 4 && forall i, j :: 0 <= i < j < 4 ==> PetTypeName(AllPetTypes[i]) != PetTypeName(AllPetTypes[j])
    ensures forall s: Sex :: s in AllSexes
    ensures |AllSexes| == 3 && forall i, j :: 0 <= i < j < 3 ==> SexName(AllSexes[i]) != SexName(AllSexes[j])
  {
    forall t: PetType ensures t in AllPetTypes {
      match t
      case Dog => assert AllPetTypes[0] == t;
      case Cat => assert AllPetTypes[1] == t;
      case Parrot => assert AllPetTypes[2] == t;
      case Turtle => assert AllPetTypes[3] == t;
    }
    forall s: Sex ensures s in AllSexes {
      match s
      case Male => assert AllSexes[0] == s;
      case Female => assert AllSexes[1] == s;
      case Unknown => assert AllSexes[2] == s;
    }
  }

  /** Every type offers twelve breeds, the last of which is "Mixed/Other". */
  lemma BreedListShape(t: PetType)
    ensures |Breeds(t)| == 12
    ensures Breeds(t)[11] == "Mixed/Other"
  {
  }

  /** No breed is listed twice for one type. */
  lemma BreedsDistinct(t: PetType)
    ensures forall i, j :: 0 <= i < j < |Breeds(t)| ==> Breeds(t)[i] != Breeds(t)[j]
    ensures "" !in Breeds(t)
  {
    match t
    case Dog => DogBreedsDistinct();
    case Cat => CatBreedsDistinct();
    case Parrot => ParrotBreedsDistinct();
    case Turtle => TurtleBreedsDistinct();
  }

  /** The photograph table of a type has exactly the listed breeds as keys,
      so the lookup of a listed breed is always defined. */
  lemma ImagesCoverBreeds(t: PetType)
    ensures PetImages(t).Keys == set b | b in Breeds(t)
  {
    match t
    case Dog => DogImagesCoverBreeds();
    case Cat => CatImagesCoverBreeds();
    case Parrot => ParrotImagesCoverBreeds();
    case Turtle => TurtleImagesCoverBreeds();
  }

  // The two facts above, one type at a time.

  lemma DogBreedsDistinct()
    ensures forall i, j :: 0 <= i < j < |Breeds(Dog)| ==> Breeds(Dog)[i] != Breeds(Dog)[j]
    ensures "" !in Breeds(Dog)
  {
  }

  lemma CatBreedsDistinct()
    ensures forall i, j :: 0 <= i < j < |Breeds(Cat)| ==> Breeds(Cat)[i] != Breeds(Cat)[j]
    ensures "" !in Breeds(Cat)
  {
  }

  lemma ParrotBreedsDistinct()
    ensures forall i, j :: 0 <= i < j < |Breeds(Parrot)| ==> Breeds(Parrot)[i] != Breeds(Parrot)[j]
    ensures "" !in Breeds(Parrot)
  {
  }

  lemma TurtleBreedsDistinct()
    ensures forall i, j :: 0 <= i < j < |Breeds(Turtle)| ==> Breeds(Turtle)[i] != Breeds(Turtle)[j]
    ensures "" !in Breeds(Turtle)
  {
  }

  lemma DogImagesCoverBreeds()
    ensures PetImages(Dog).Keys == set b | b in Breeds(Dog)
  {
  }

  lemma CatImagesCoverBreeds()
    ensures PetImages(Cat).Keys == set b | b in Breeds(Cat)
  {
  }

  lemma ParrotImagesCoverBreeds()
    ensures PetImages(Parrot).Keys == set b | b in Breeds(Parrot)
  {
  }

  lemma TurtleImagesCoverBreeds()
    ensures PetImages(Turtle).Keys == set b | b in Breeds(Turtle)
  {
  }

  /** A listed breed always has a photograph. */
  lemma ListedBreedHasImage(t: PetType, breed: string)
    requires breed in Breeds(t)
    ensures breed in PetImages(t)
  {
    ImagesCoverBreeds(t);
    assert breed in PetImages(t).Keys;
  }

  /** No listed breed is the empty string. */
  lemma ListedBreedNotEmpty(t: PetType, breed: string)
    requires breed in Breeds(t)
    ensures breed != ""
  {
    BreedsDistinct(t);
  }

  /** The lookup is not injective: two dog breeds share one photograph. */
  lemma ImagesNotInjective()
    ensures "Yorkshire Terrier" != "Shih Tzu"
    ensures PetImages(Dog)["Yorkshire Terrier"] == PetImages(Dog)["Shih Tzu"]
  {
  }
}
