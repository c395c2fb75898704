# PetMate, modelled in Dafny

PetMate is a React front end for pet owners. Users keep records of their pets, book appointments (with an optional browser reminder), view simple statistics about a pet's appointments and chat with a Gemini model, optionally attaching a photo. Storage and sign-in go through Supabase, and the chat goes through an HTTP call. All of those appear here only as the outcomes the components see: `Ok(value)` or `Err(message)`. Clock readings are integers in milliseconds, or ISO strings where the code only stores them.

The model has one Dafny module per component, plus three shared modules.

| module | models |
|---|---|
| `Common` | Option/Result, and the JavaScript string operations the components use. These are `trim` (with the full ECMAScript white-space set), `split` on one character, `includes`, and the ASCII part of `toLowerCase`/`toUpperCase`. |
| `Records` | the `pets` and `appointments` rows of `src/types/supabase.ts`, and the queries the pages issue |
| `PetCatalog` | the `PetType`/`Sex` enumerations and the `BREEDS` and `PET_IMAGES` tables of `src/types/pet.ts` |
| `Chat` | `GeminiAI.tsx`. The session is a class with the transcript, the generating flag, the input and the chosen image. `Send` covers a send up to the HTTP call (in two steps, `HandleSend` and `BeginAnswer`), and `Complete` covers the rest. Also the request payload and the text extraction. |
| `AppointmentForm` | `AppointmentForm.tsx`: loading the pets, the submit handler, the reminder decision and the pet options. The platform timer is a registry of reminders held by the form, with the delay the timer actually waits. |
| `PetProfile` | `PetProfilePage.tsx`: loading, deleting an appointment, the two-step pet deletion, the keyword classification, the histogram, the pie-chart data and its colours |
| `PetForm` | `PetForm.tsx` with the tables of `pet.ts`: the profile check, the submit handler, the record built from the fields, update versus insert, and the type, breed and sex options |
| `App` | `App.tsx`: the document title derived from the path, and the route table |
| `Layout` | `Layout.tsx`: the scroll handler that hides and shows the theme toggle |
| `HomePage` | `HomePage.tsx`: sequencing of the two queries, and the per-pet appointment count |
| `AppointmentsPage` | `AppointmentsPage.tsx`: sequencing of the two queries, pet names, the refresh after a submit, and the permission request |

Each event handler is one atomic method. A method's parameters are the outcomes of the backend calls it makes. Where which calls are made depends on earlier outcomes (the two sequential fetches, the refetch after a submit, the two-step pet deletion), the method also returns the calls it issues, in order. A component's state is a class whose fields those methods reassign. Pure computations are functions, and the properties that relate them are lemmas.

## Model

| member | source | states |
|---|---|---|
| Common.TrimStart | src/components/ai/GeminiAI.tsx:33 | the result is a suffix of the input that does not begin with white space |
| Common.TrimEnd | src/components/ai/GeminiAI.tsx:33 | the result is a prefix of the input that does not end with white space |
| Common.TrimStartDropsWhitespace | src/components/ai/GeminiAI.tsx:33 | everything the start trim drops is white space |
| Common.TrimEndDropsWhitespace | src/components/ai/GeminiAI.tsx:33 | everything the end trim drops is white space |
| Common.TrimIsSlice | src/components/ai/GeminiAI.tsx:37 | `trim()` is the contiguous slice of the input between the leading and trailing white space |
| Common.TrimDropsWhitespace | src/components/ai/GeminiAI.tsx:37 | what `trim()` removes on either side is white space |
| Common.TrimEmptyIff | src/components/ai/GeminiAI.tsx:33 | `trim()` is empty exactly when the input is all white space, which is when the send guard treats the text as empty |
| Common.Split | src/App.tsx:22 | `split` never returns an empty array |
| Common.SplitPiecesLackSep | src/App.tsx:22 | no piece of a split contains the separator |
| Common.JoinSplit | src/App.tsx:22 | joining the pieces back with the separator gives the original string |
| Common.SplitNoSep | src/components/ai/GeminiAI.tsx:89 | a string without the separator splits into itself alone |
| Common.SplitIsSingleIff | src/components/ai/GeminiAI.tsx:89 | the split has more than one piece exactly when the separator occurs |
| Common.SplitAt | src/App.tsx:22 | a separator between two strings splits them apart: the pieces are those of the left part followed by those of the right part |
| Common.ToLower | src/pages/PetProfilePage.tsx:120 | lower-casing keeps the length |
| Common.ToUpper | src/App.tsx:24 | upper-casing keeps the length |
| Common.LowerIgnoresCase | src/pages/PetProfilePage.tsx:120-124 | lower-casing is idempotent and forgets any upper-casing done before it |
| PetCatalog.EnumsAreClosed | src/types/pet.ts:1-2 | there are exactly four pet types and three sexes, every value is listed, and their names are pairwise distinct |
| PetCatalog.BreedListShape | src/types/pet.ts:11-68 | every type lists twelve breeds, the last of which is "Mixed/Other" |
| PetCatalog.BreedsDistinct | src/types/pet.ts:11-68 | no breed appears twice for one type, and none is empty |
| PetCatalog.ImagesCoverBreeds | src/types/pet.ts:70-163 | the keys of each type's photograph table are exactly that type's listed breeds |
| PetCatalog.ListedBreedHasImage | src/types/pet.ts:70-163 | every listed breed has a photograph |
| PetCatalog.ListedBreedNotEmpty | src/types/pet.ts:11-68 | no listed breed is the empty string |
| PetCatalog.ImagesNotInjective | src/types/pet.ts:85-91 | "Yorkshire Terrier" and "Shih Tzu" are different breeds with the same photograph |
| Chat.IsBlank | src/components/ai/GeminiAI.tsx:33 | there is nothing to send exactly when the input is all white space and no image is chosen |
| Chat.ImageRef | src/components/ai/GeminiAI.tsx:39 | the user message carries the preview URL exactly when there is a non-empty one |
| Chat.DataField | src/components/ai/GeminiAI.tsx:89 | `split(",")[1]` is defined exactly when the data URL has a comma, and it contains no comma |
| Chat.DataFieldStripsHeader | src/components/ai/GeminiAI.tsx:84-90 | for a data URL `data:<type>;base64,<payload>` (section 3 of RFC 2397), where the type has no comma and the payload uses the base64 alphabet (section 4 of RFC 4648), the inline data is exactly the payload |
| Chat.PayloadIsDetermined | src/components/ai/GeminiAI.tsx:76-92 | the request parts are determined by the text, the image and the data URL |
| Chat.BuildParts | src/components/ai/GeminiAI.tsx:76-92 | fails exactly when an image is chosen and cannot be read. Otherwise: a text part exactly when the text is non-empty, first; then an inline-data part (the file's type, the data field) exactly when an image is chosen; at most two parts |
| Chat.FirstText | src/components/ai/GeminiAI.tsx:114-119 | the optional chain `data?.candidates?.[0]?.content?.parts?.[0]?.text` yields nothing for a response without candidates or with an empty list |
| Chat.ExtractText | src/components/ai/GeminiAI.tsx:114-119 | the extracted text is never empty |
| Chat.ExtractReply | src/components/ai/GeminiAI.tsx:114-119 | a response carrying a non-empty text yields that text; one carrying "" yields "No response received." |
| Chat.ExtractFallbackIff | src/components/ai/GeminiAI.tsx:114-119 | the fallback is returned exactly when the first text is missing at some level, is empty, or is the fallback itself; a response without candidates always yields it |
| Chat.AnswerText | src/components/ai/GeminiAI.tsx:121-140 | the answer is the extracted text after a successful call and the apology after any failure, and it is never empty |
| Chat.ChatSession.constructor | src/components/ai/GeminiAI.tsx:8-12 | the session starts with an empty transcript, not generating, with empty input and no image |
| Chat.ChatSession.SetInput | src/components/ai/GeminiAI.tsx:191-198 | typing, possible only while not generating, sets the input |
| Chat.ChatSession.HandleImageChange | src/components/ai/GeminiAI.tsx:50-56 | a chosen file becomes the image together with its preview URL; no file changes nothing |
| Chat.ChatSession.RemoveImage | src/components/ai/GeminiAI.tsx:58-61 | the image and its preview are both cleared |
| Chat.ChatSession.FinishCycle | src/components/ai/GeminiAI.tsx:130-144 | exactly one answer message is appended; generating ends and the image is cleared |
| Chat.ChatSession.HandleSend | src/components/ai/GeminiAI.tsx:32-45 | the first step of a send: nothing is sent and nothing changes exactly when the trimmed input is empty and no image is chosen. Otherwise exactly one user message (the trimmed input, the preview if any) is appended, the input is cleared, and the trimmed text is handed on |
| Chat.ChatSession.BeginAnswer | src/components/ai/GeminiAI.tsx:72-92 | the second step of a send: generating starts and the request body is the payload of BuildParts. If the image cannot be read, the catch path appends the apology, ends generating and clears the image, and no request is made |
| Chat.ChatSession.Send | src/components/ai/GeminiAI.tsx:32-92 | with nothing to send nothing changes. Otherwise the user message (trimmed input, preview) is appended and the input cleared; if the chosen image cannot be read, the apology follows at once, the session is Idle with the image cleared, and no request is made; otherwise the session is Generating (so no second send can start) and the request is the payload of the trimmed input and the image |
| Chat.ChatSession.Complete | src/components/ai/GeminiAI.tsx:121-144 | exactly one answer message (the extracted text, or the apology) is appended; nothing is rethrown; generating ends; the image is cleared; the input is untouched |
| Chat.SendDisabledStates | src/components/ai/GeminiAI.tsx:203 | the send button is disabled while generating; otherwise, with no image, it is disabled exactly when the input is all white space |
| Chat.Converse | src/components/ai/GeminiAI.tsx:32-145 | a text-only turn appends the user message and then the answer, in that order and nothing else, and ends with the session idle |
| Chat.ConverseWithImage | src/components/ai/GeminiAI.tsx:32-145 | a turn with a readable image appends the user message (trimmed text, preview) and then the answer, in that order and nothing else, and ends idle with the image cleared |
| AppointmentForm.BodyNamesAppointment | src/components/appointment/AppointmentForm.tsx:90 | the notification body quotes the appointment's name right after its fixed prefix |
| AppointmentForm.TimerDelay | src/components/appointment/AppointmentForm.tsx:88-93 | the delay `setTimeout` waits is between 0 and 2^31 - 1; it is the requested delay when that is in range, and 0 or the requested delay less 2^32 just above it |
| AppointmentForm.ReminderFor | src/components/appointment/AppointmentForm.tsx:81-94 | a reminder is registered exactly when the Notification API exists, permission is "granted" and the appointment is strictly in the future. It is given the difference as its delay, comes due after the delay the timer actually waits, and its title, body and icon are the fixed ones |
| AppointmentForm.ReminderOnTimeIff | src/components/appointment/AppointmentForm.tsx:84-93 | a reminder never comes due before now or after the appointment, and comes due at the appointment exactly when that is at most 2^31 - 1 ms away |
| AppointmentForm.LongDelayRemindsAtOnce | src/components/appointment/AppointmentForm.tsx:84-93 | an appointment 2^31 ms or 30 days away gets a reminder that comes due at once |
| AppointmentForm.ChainedDelays | src/components/appointment/AppointmentForm.tsx:88-93 | every link of a timer chain is a delay the timer honours (between 1 and 2^31 - 1) |
| AppointmentForm.ChainedDelaysOnTime | src/components/appointment/AppointmentForm.tsx:88-93 | a chain of honoured delays comes due exactly at the appointment, however far away |
| AppointmentForm.PetOptions | src/components/appointment/AppointmentForm.tsx:106-109 | one option per pet, in order, valued by the pet's id and labelled with its name |
| AppointmentForm.AppointmentFormState.constructor | src/components/appointment/AppointmentForm.tsx:18-25 | the form starts empty, not loading, with no error and no reminders; the mount effect at lines 112-114 sets the date to today |
| AppointmentForm.AppointmentFormState.LoadPets | src/components/appointment/AppointmentForm.tsx:29-47 | with a user, a successful non-null result replaces the pets; anything else leaves them |
| AppointmentForm.AppointmentFormState.Submit | src/components/appointment/AppointmentForm.tsx:49-104 | with no user: the login error, no record, no reminder. Otherwise the record has the fresh id, the user as owner, the form's fields and the clock, and loading ends false. After a successful insert: onSubmit is called, the error is cleared, and at most one reminder (ReminderFor, with the delay the timer actually waits) is added. After a failed insert: the failure message, no reminder, onSubmit not called |
| PetProfile.Classify | src/pages/PetProfilePage.tsx:120-126 | a name is Other exactly when its lower-cased form contains none of "checkup", "vaccine", "grooming" |
| PetProfile.ClassifyPrecedence | src/pages/PetProfilePage.tsx:120-126 | on the lower-cased name, "checkup" wins over "vaccine", which wins over "grooming"; with none of them the type is Other (each direction of each case) |
| PetProfile.ClassifyIgnoresCase | src/pages/PetProfilePage.tsx:120-126 | classification does not depend on how the name is cased |
| PetProfile.CountOf | src/pages/PetProfilePage.tsx:127 | a category's count never exceeds the number of appointments |
| PetProfile.CountOfAppend | src/pages/PetProfilePage.tsx:127 | one more appointment raises the count of exactly its own category by one |
| PetProfile.CountsPartition | src/pages/PetProfilePage.tsx:118-131 | the four counts add up to the number of appointments |
| PetProfile.KeyOrder | src/pages/PetProfilePage.tsx:127-133 | the accumulator's keys in the order `Object.entries` lists them: no more keys than appointments, and the first key is the first appointment's category |
| PetProfile.KeyOrderIsPresentCategories | src/pages/PetProfilePage.tsx:127-133 | the histogram's keys, in insertion order, are distinct and are exactly the categories that occur |
| PetProfile.KeyOrderAppend | src/pages/PetProfilePage.tsx:127 | one more appointment adds its category as the last key, unless it is already a key |
| PetProfile.HistogramStep | src/pages/PetProfilePage.tsx:127 | one reduce step turns the histogram of a prefix into that of the longer prefix |
| PetProfile.HistogramMeaning | src/pages/PetProfilePage.tsx:118-131 | in the histogram, a category is a key exactly when it occurs, every count is at least one, and the counts sum to the number of appointments |
| PetProfile.AppointmentTypes | src/pages/PetProfilePage.tsx:118-131 | the reduce loop builds the histogram: keys in order of first appearance, each count equal to its category's count (at least one), summing to the number of appointments |
| PetProfile.PieChartData | src/pages/PetProfilePage.tsx:133-138 | one entry per histogram key, in key order, named after the category and valued by its count |
| PetProfile.CategoryNameInjective | src/pages/PetProfilePage.tsx:120-126 | different categories have different names |
| PetProfile.OccurringCategoryHasSlice | src/pages/PetProfilePage.tsx:127-138 | a category that occurs has a slice, at its position among the keys |
| PetProfile.SliceCategoryOccurs | src/pages/PetProfilePage.tsx:127-138 | every slice is named after a category that occurs |
| PetProfile.PieChartCoversCategories | src/pages/PetProfilePage.tsx:133-138 | the pie has a slice named after a category exactly when that category occurs |
| PetProfile.PieChartSlices | src/pages/PetProfilePage.tsx:133-138 | slice names are distinct, and each slice's value is its category's count, at least one |
| PetProfile.SliceColor | src/pages/PetProfilePage.tsx:325 | every slice gets one of the four colours |
| PetProfile.SliceColorCycles | src/pages/PetProfilePage.tsx:140 | the index modulo 4 is in range; colours repeat every four slices, and any four consecutive slices have different colours |
| PetProfile.RemoveById | src/pages/PetProfilePage.tsx:110 | no entry with the id remains; every remaining entry was there; every entry with another id remains |
| PetProfile.RemoveByIdKeepsOrder | src/pages/PetProfilePage.tsx:110 | the remaining entries keep their order, and exactly the entries with the id are removed |
| PetProfile.PetProfileState.constructor | src/pages/PetProfilePage.tsx:36-42 | the page starts with no pet, no appointments, loading, and no error |
| PetProfile.PetProfileState.FetchData | src/pages/PetProfilePage.tsx:44-68 | without an id nothing changes and loading stays true. Otherwise loading ends false; the pet and its appointments (null read as none) are replaced only when both queries succeed, and a failure of either sets "Failed to load pet data" |
| PetProfile.PetProfileState.DeleteAppointment | src/pages/PetProfilePage.tsx:101-115 | on success the list loses that id and keeps the rest; on failure the list stays and the error is set |
| PetProfile.PetProfileState.DeletePet | src/pages/PetProfilePage.tsx:74-99 | with no pet, nothing happens. Otherwise the appointments are deleted first, and the pet row only if that succeeded; the page goes to "/" only if both succeeded, else the error is "Failed to delete pet" |
| PetForm.OrElse | src/components/pet/PetForm.tsx:93 | `a \|\| b` on strings: `a` unless it is empty |
| PetForm.ImageFor | src/components/pet/PetForm.tsx:102-107 | `image_url` is null exactly when the type or the breed is unset |
| PetForm.ImageNeedsTypeAndBreed | src/components/pet/PetForm.tsx:102-107 | the image is null exactly when the type or the breed is unset; it is a photograph exactly when both are set and the breed is in the type's table |
| PetForm.ListedBreedHasPhoto | src/components/pet/PetForm.tsx:102-107 | a listed breed of the type always gets its photograph |
| PetForm.NumberField | src/components/pet/PetForm.tsx:98-100 | a numeric field is null exactly when its text is empty, and otherwise it is the parsed text |
| PetForm.PetDataFor | src/components/pet/PetForm.tsx:92-109 | the record keeps the edited pet's id when it has one, has a non-empty id whenever a fresh id is supplied, and is owned by the user |
| PetForm.PetDataIdentity | src/components/pet/PetForm.tsx:92-109 | the record keeps the edited pet's id (a fresh id when creating), the owner is the user, the sex defaults to Unknown, the age is null exactly when its field is empty, and the image is null exactly when type or breed is unset |
| PetForm.SaveRequestFor | src/components/pet/PetForm.tsx:111-126 | editing updates the edited pet's row, creating inserts with `created_at`, and both carry the record |
| PetForm.OptionsOf | src/components/pet/PetForm.tsx:149 | one option per breed, in order, with value and label the breed |
| PetForm.BreedOptions | src/components/pet/PetForm.tsx:148-150 | no type means no options; otherwise one option per listed breed of the type, in order |
| PetForm.OfferedBreedHasPhoto | src/components/pet/PetForm.tsx:148-150 | every breed the select offers is listed for the type and has a photograph |
| PetForm.FixedOptionsMatchEnums | src/components/pet/PetForm.tsx:141-156 | the type and sex selects offer exactly the enumeration values, in order |
| PetForm.PetFormState.constructor | src/components/pet/PetForm.tsx:20-29 | the fields start from the edited pet's values (numbers as their text) or empty, and the profile is not checked |
| PetForm.PetFormState.ChangeType | src/components/pet/PetForm.tsx:189-192 | changing the type always clears the breed, so the record would have no image |
| PetForm.PetFormState.CheckUserProfile | src/components/pet/PetForm.tsx:34-59 | with no user nothing happens. A found profile marks the check done; a missing one also sets its error; a thrown lookup sets the verify error and leaves the check undone |
| PetForm.PetFormState.Submit | src/components/pet/PetForm.tsx:61-139 | with no user, or before the profile check: that error and no write. With a missing profile: its message and no write. Otherwise: the update or insert of the record built from the fields. On success: onSubmit, or navigation to "/" without it. On failure: the error's message or the default. Loading ends false after any attempt |
| App.LastSegment | src/App.tsx:22 | the last piece of the path contains no "/" |
| App.PageName | src/App.tsx:22 | the page name is never empty and contains no "/" |
| App.FormatName | src/App.tsx:23-24 | the first character is upper-cased and the rest is unchanged |
| App.Title | src/App.tsx:22-27 | every title starts with "PetMate - " and has a name after it |
| App.TitleShape | src/App.tsx:25-27 | the title is "PetMate - " and a name, which is "Pet Management" exactly when the formatted page name is "Home" or already "Pet Management"; otherwise it is the formatted page name |
| App.PageNameOfSegment | src/App.tsx:22 | the page name of a path ending in a segment is that segment |
| App.TrailingSlashIsHome | src/App.tsx:22-27 | a path ending in "/" is titled like the home page |
| App.HomeTitles | src/App.tsx:22-27 | "/" and "/home" are both titled "PetMate - Pet Management" |
| App.SegmentTitle | src/App.tsx:22-27 | any other last segment gives "PetMate - " and the segment with its first letter upper-cased |
| App.DropTrailingEmpty | src/App.tsx:43-62 | the result is a prefix of the pieces that does not end with an empty piece |
| App.DropTrailingEmptyDropsEmpty | src/App.tsx:43-62 | only empty pieces are dropped |
| App.Segments | src/App.tsx:43-62 | the pieces the router matches never end with an empty piece: any number of trailing slashes is allowed |
| App.Matched | src/App.tsx:44-60 | a matched route always shows a page; which page each path shows is stated by App.RootRoute, App.AuthRoutes, App.MemberRoutes and App.PetProfileRoute |
| App.Resolve | src/App.tsx:30-62 | the spinner is shown exactly while authentication loads |
| App.MemberPagesNeedUser | src/App.tsx:45-56 | without a user no member page is reachable; with one the landing page is not; member pages are exactly those shown inside the Layout shell |
| App.RedirectsSettle | src/App.tsx:60 | every unmatched path redirects to "/" for a user and to "/login" otherwise, and that target renders a page |
| App.DropTrailingEmptyCons | src/App.tsx:43-62 | a piece in front of pieces that are not all empty is kept |
| App.TrailingSlashIgnored | src/App.tsx:43-62 | a trailing slash does not change what a path renders |
| App.ExtraLeadingSlashRedirects | src/App.tsx:43-60 | a path with an extra leading slash matches no route and redirects, to "/" when signed in and to "/login" otherwise |
| App.OneSegment | src/App.tsx:43-62 | "/" and one slash-free segment is matched as the empty piece and that segment |
| App.TwoSegments | src/App.tsx:50 | "/" and two slash-free segments are matched as the empty piece and the two segments |
| App.RootRoute | src/App.tsx:45-48 | "/" shows the landing page to a guest and the home page, inside the Layout shell, to a user |
| App.AuthRoutes | src/App.tsx:57-59 | "/login", "/signup" and "/reset-password" (in any ASCII case) show their pages outside the shell, whether or not a user is signed in |
| App.MemberRoutes | src/App.tsx:46-53 | "/add-pet", "/appointments", "/ai" and "/settings" (in any ASCII case) show their pages inside the shell to a user, and redirect a guest to "/login" |
| App.PetProfileRoute | src/App.tsx:46-50 | "/pets/<id>" with a non-empty, slash-free id shows that pet's profile inside the shell to a user, and redirects a guest to "/login" |
| Layout.Visible | src/components/layout/Layout.tsx:18-22 | the toggle can be hidden only past the first 100 pixels |
| Layout.Recorded | src/components/layout/Layout.tsx:23 | the recorded position is the scroll position, or 0 when it is negative or zero; it is never negative |
| Layout.VisibleCases | src/components/layout/Layout.tsx:18-21 | the toggle is hidden exactly when scrolling down past 100; scrolling up, standing still or staying within 100 shows it |
| Layout.Step | src/components/layout/Layout.tsx:16-24 | after one event the recorded position is not negative, and the toggle is hidden only when the page moved down |
| Layout.Run | src/components/layout/Layout.tsx:11-14 | before any event the toggle is visible at position 0; the recorded position is never negative |
| Layout.RunDependsOnLastTwo | src/components/layout/Layout.tsx:16-24 | after any events, the visibility depends only on the last position and the one recorded before it, and the recorded position only on the last |
| Layout.SameEndingSameState | src/components/layout/Layout.tsx:16-24 | two histories that end with the same two positions leave the same state |
| Layout.ScrollTracker.constructor | src/components/layout/Layout.tsx:11-14 | visible, at position 0 |
| Layout.ScrollTracker.HandleScroll | src/components/layout/Layout.tsx:16-24 | one event is one Step of the state machine; the toggle is hidden exactly when the position exceeds both the last recorded one and 100 |
| HomePage.CountForPet | src/pages/HomePage.tsx:50-52 | the count never exceeds the number of appointments, and it is 0 exactly when no appointment names the pet |
| HomePage.CountForPets | src/pages/HomePage.tsx:50-52 | the appointments of a set of pets never outnumber all appointments |
| HomePage.CountForPetsAddOne | src/pages/HomePage.tsx:50-52 | adding one more pet adds exactly its own count |
| HomePage.CardCountsNeverExceedTotal | src/pages/HomePage.tsx:50-52 | summed over pets with distinct ids, the card counts never exceed the number of appointments |
| HomePage.EmptyCount | src/pages/HomePage.tsx:50-52 | no pets, no appointments counted |
| HomePage.HomePageState.constructor | src/pages/HomePage.tsx:11-13 | the page starts with no pets, no appointments, and loading |
| HomePage.HomePageState.FetchData | src/pages/HomePage.tsx:17-48 | with no user nothing is queried and loading stays true. Otherwise the pets query comes first, and the appointments query runs only after it succeeded. Both lists are replaced only when both succeed (null read as none). Loading ends false |
| AppointmentsPage.FindPet | src/pages/AppointmentsPage.tsx:54 | no pet is found exactly when no id matches; a found pet is the first one with the id |
| AppointmentsPage.GetPetName | src/pages/AppointmentsPage.tsx:53-56 | the name shown is "Unknown Pet" or the name of a pet with the id |
| AppointmentsPage.GetPetNameIsFirstMatch | src/pages/AppointmentsPage.tsx:53-56 | the name shown is that of the first pet with the id |
| AppointmentsPage.GetPetNameUnknown | src/pages/AppointmentsPage.tsx:53-56 | with no such pet the name is "Unknown Pet" |
| AppointmentsPage.RequestPermissionOnMount | src/pages/AppointmentsPage.tsx:74-78 | permission is requested exactly when the API exists and permission is not "granted", including after a denial |
| AppointmentsPage.NoReminderWhileAsking | src/pages/AppointmentsPage.tsx:74-78 | whenever the page would ask, or the API is missing, the form registers no reminder |
| AppointmentsPage.AppointmentsPageState.constructor | src/pages/AppointmentsPage.tsx:12-15 | the page starts with no appointments, no pets, the modal closed, and loading |
| AppointmentsPage.AppointmentsPageState.FetchData | src/pages/AppointmentsPage.tsx:18-51 | with no user nothing is queried and loading stays true. Otherwise appointments come first, and pets only after that succeeded. Both lists are set only when both succeed. Loading ends false |
| AppointmentsPage.AppointmentsPageState.HandleFormSubmit | src/pages/AppointmentsPage.tsx:58-71 | the modal closes; with a user the list is re-queried and replaced only when the refetch returns data |

## Left out

- Supabase and authentication: every query, insert, update, delete and auth call is replaced by its outcome, given as a parameter. `src/lib/supabase.ts` and `src/contexts/AuthContext.tsx` are not part of this model.
- The HTTP call to the Gemini endpoint, its URL and its key: its outcome is a parameter of `Complete`. The FileReader read is a parameter of `BeginAnswer` (the data URL, or a failure).
- `setTimeout`, the `Notification` constructor and `Notification.requestPermission`: a registered timer is an entry in the form's reminder registry, with the instant it comes due, and a permission request is a returned flag. The event loop running the timer and the notification being shown are not modelled.
- Date parsing and formatting (`new Date(\`${date}T${time}\`)`, `toISOString`, date-fns `format`): the appointment instant, the current instant and the ISO strings are parameters.
- `parseFloat` and `parseInt` (including NaN) and the numbers' `toString()`: these are the function parameters `parseDecimal`, `parseWhole` and `show`. Floating-point arithmetic and the pie labels' percentages are not modelled.
- Asynchronous interleaving and React's re-rendering: each handler runs atomically. A `loading` flag set and cleared within one handler is therefore not observable in the model. Effects run when the method is called.
- All JSX and visual components, the auto-scroll of the chat, the delete confirmation modal and the HTML `required` attributes of the form inputs (which browsers enforce before submit).
- `toLowerCase`/`toUpperCase` are modelled for ASCII letters only; other characters are left unchanged.
- Routing: the router's URL decoding is not modelled; a path is split on "/" as written. Trailing slashes are forgiven and any other empty segment (an extra leading or interior slash) makes the path unmatched, which is how the route patterns compile. Static segments match without regard to ASCII case.
- The `"bot"` message role of `ChatMessage.tsx` is declared as `Role.Bot` so that the roles match the message type, but no handler of the chat component produces it, and its rendering is not modelled.
- Layout: scroll positions are integers, while `window.scrollY` is a double-precision number; fractional positions (on zoomed or high-density screens) are not modelled.
- AppointmentForm.AppointmentFormState.Submit: `created_at` and `updated_at` come from two separate clock readings in the source; the model uses one reading for both.
- The trivial field setters of the forms (name, description, date, time, pet, breed, sex, weight, height, age) are plain assignments and are not modelled as methods.
- Chat.Converse: a composite of the handlers for a text-only turn. Its `encoded` parameter stands for the read outcome, which is never consulted because no image is chosen.

## Findings

| source | as written | input that shows it | evidently intended | confidence | as-written member | corrected member |
|---|---|---|---|---|---|---|
| src/components/appointment/AppointmentForm.tsx:84-93 | the reminder is scheduled with `setTimeout(…, timeDiff)`; the timer converts its delay to a signed 32-bit integer and runs a negative delay at once, so a delay of 2^31 ms (about 24.8 days) or more fires immediately or early | an appointment 30 days ahead: `timeDiff` is 2592000000 and the "is scheduled now!" notification is shown at once | the notification is shown when the appointment starts, however far ahead it is | high; not executed | AppointmentForm.LongDelayRemindsAtOnce | AppointmentForm.ChainedDelaysOnTime |
