/** The appointment form of src/components/appointment/AppointmentForm.tsx:
    the submit handler (login guard, record construction, insert, reminder
    decision and delay, error reporting) and the pet select's options.

    The platform timer is modelled as a registry of reminders held by the
    form: registering a `setTimeout` appends one entry carrying the delay it
    was given, the time it actually comes due and the notification it will
    show. */
module AppointmentForm {
  import opened Common
  import opened Records

  const LoginRequired: string := "You must be logged in to add an appointment"
  const InsertFailed: string := "Failed to add appointment. Please try again."
  const ReminderTitle: string := "Pet Appointment Reminder"
  const ReminderIcon: string := "/pet-icon.svg"

  /** One registered timer: it was given `delay` milliseconds, comes due
      at `due`, and shows a notification with this title, body and icon. */
  datatype Reminder = Reminder(due: int, delay: int, title: string, body: string, icon: string)

  /** The longest delay a timer honours: 2^31 - 1 milliseconds. */
  const MaxTimerDelay: int := 0x7FFF_FFFF

  /** The delay `setTimeout` actually waits when given `requested`
      milliseconds: the Web IDL conversion to `long` keeps the value modulo
      2^32 as a signed 32-bit integer, and the HTML Standard's timer
      initialisation steps turn a negative timeout into 0. */
  function TimerDelay(requested: int): (d: int)
    ensures 0 <= d <= MaxTimerDelay
    ensures 0 <= requested <= MaxTimerDelay ==> d == requested
    ensures MaxTimerDelay < requested <= 2 * (MaxTimerDelay + 1) ==> d == 0 || d == requested - 2 * (MaxTimerDelay + 1)
  {
    var wrapped := requested % 0x1_0000_0000;
    if wrapped > MaxTimerDelay then 0 else wrapped
  }

  const BodyPrefix: string := "Your appointment \""
  const BodySuffix: string := "\" is scheduled now!"

  function ReminderBody(name: string): string
  {
    BodyPrefix + name + BodySuffix
  }

  /** The notification body quotes the appointment's name. */
  lemma BodyNamesAppointment(name: string)
    ensures OccursAt(ReminderBody(name), name, |BodyPrefix|)
    ensures Contains(ReminderBody(name), name)
  {
    var body := ReminderBody(name);
    assert body[|BodyPrefix|..|BodyPrefix| + |name|] == name;
    assert OccursAt(body, name, |BodyPrefix|);
  }

  /** The reminder a successful insert registers: one exactly when the
      Notification API exists, permission is "granted" and the appointment
      instant is strictly after now. It is given the difference as its
      delay and comes due after the delay the timer actually waits. */
  function ReminderFor(env: NotificationEnv, name: string, fireAt: int, now: int): (r: Option<Reminder>)
    ensures r.Some? <==> env.supported && env.permission == Granted && fireAt > now
    ensures r.Some? ==> && r.value.delay == fireAt - now > 0
                        && r.value.due == now + TimerDelay(fireAt - now)
                        && r.value.title == ReminderTitle
                        && r.value.body == ReminderBody(name)
                        && r.value.icon == ReminderIcon
  {
    if env.supported && env.permission == Granted then
      var timeDiff := fireAt - now;
      if timeDiff > 0 then Some(Reminder(now + TimerDelay(timeDiff), timeDiff, ReminderTitle, ReminderBody(name), ReminderIcon))
      else None
    else None
  }

  /** A registered reminder never comes due before now or after the
      appointment, and it comes due at the appointment exactly when the
      appointment is at most 2^31 - 1 milliseconds away. */
  lemma ReminderOnTimeIff(env: NotificationEnv, name: string, fireAt: int, now: int)
    requires ReminderFor(env, name, fireAt, now).Some?
    ensures now <= ReminderFor(env, name, fireAt, now).value.due <= fireAt
    ensures ReminderFor(env, name, fireAt, now).value.due == fireAt <==> fireAt - now <= MaxTimerDelay
  {
  }

  /** An appointment 2^31 milliseconds (about 24.8 days) away, or 30 days
      away, gets a reminder that comes due at once. */
  lemma LongDelayRemindsAtOnce(env: NotificationEnv, name: string, now: int)
    requires env.supported && env.permission == Granted
    ensures ReminderFor(env, name, now + MaxTimerDelay + 1, now).value.due == now
    ensures ReminderFor(env, name, now + 30 * 24 * 60 * 60 * 1000, now).value.due == now
  {
  }

  /** The delays of a chain of timers that waits `remaining` milliseconds in
      steps the timer honours: each link re-arms the next until the total
      is reached. */
  function ChainedDelays(remaining: int): (delays: seq<int>)
    ensures forall k :: 0 <= k < |delays| ==> 0 < delays[k] <= MaxTimerDelay
    decreases remaining
  {
    if remaining <= 0 then []
    else if remaining <= MaxTimerDelay then [remaining]
    else [MaxTimerDelay] + ChainedDelays(remaining - MaxTimerDelay)
  }

  /** The instant a chain of timers started at `start` comes due. */
  function ChainDue(start: int, delays: seq<int>): int
    decreases |delays|
  {
    if delays == [] then start else ChainDue(start + TimerDelay(delays[0]), delays[1..])
  }

  /** A chain of honoured delays comes due exactly at the appointment, for
      every appointment in the future, however far away. */
  lemma {:induction false} ChainedDelaysOnTime(now: int, fireAt: int)
    requires fireAt > now
    ensures ChainDue(now, ChainedDelays(fireAt - now)) == fireAt
    decreases fireAt - now
  {
    var delays := ChainedDelays(fireAt - now);
    if fireAt - now > MaxTimerDelay {
      ChainedDelaysOnTime(now + MaxTimerDelay, fireAt);
      assert delays[1..] == ChainedDelays(fireAt - (now + MaxTimerDelay));
    }
  }

  function OptionToSeq<T>(o: Option<T>): (r: seq<T>)
    ensures |r| <= 1
  {
    match o
    case Some(x) => [x]
    case None => []
  }

  /** petOptions: one option per pet, in the same order, valued by the pet's
      id and labelled with its name. */
  function PetOptions(pets: seq<Pet>): (r: seq<SelectOption>)
    ensures |r| == |pets|
    ensures forall i :: 0 <= i < |pets| ==> r[i].value == pets[i].id && r[i].caption == pets[i].name
  {
    if pets == [] then []
    else [SelectOption(pets[0].id, pets[0].name)] + PetOptions(pets[1..])
  }

  class AppointmentFormState {
    var name: string
    var description: string
    var date: string
    var time: string
    var petId: string
    var pets: seq<Pet>
    var loading: bool
    var error: string
    /** The timers this form has registered with the platform. */
    var reminders: seq<Reminder>

    /** The initial form; `today` is the current date formatted
        "yyyy-MM-dd", which the mount effect puts in the date field. */
    constructor (today: string)
      ensures name == "" && description == "" && date == today && time == "" && petId == ""
      ensures pets == [] && !loading && error == "" && reminders == []
    {
      name, description, date, time, petId := "", "", today, "", "";
      pets := [];
      loading := false;
      error := "";
      reminders := [];
    }

    /** fetchPets: with a user, the pets the query returns replace the list;
        a failed query or a null result leaves it as it was. */
    method LoadPets(user: Option<string>, response: Result<Rows<Pet>>)
      modifies this`pets
      ensures user.Some? && response.Ok? && response.value.Some? ==> pets == response.value.value
      ensures !(user.Some? && response.Ok? && response.value.Some?) ==> pets == old(pets)
    {
      if user.None? {
        return;
      }
      if response.Ok? && response.value.Some? {
        pets := response.value.value;
      }
    }

    /** handleSubmit, given the signed-in user's id, the fresh id the uuid
        generator yields, the ISO clock string, the outcome of the insert,
        the Notification API as the page sees it, the appointment instant
        and the current instant (both in milliseconds). Returns the record
        handed to the insert, and whether onSubmit was called. */
    method Submit(user: Option<string>, newId: string, nowIso: string, insert: Result<()>,
                  env: NotificationEnv, fireAt: int, now: int)
      returns (record: Option<Appointment>, calledOnSubmit: bool)
      modifies this`loading, this`error, this`reminders
      ensures user.None? ==>
        && record.None? && !calledOnSubmit && error == LoginRequired
        && loading == old(loading) && reminders == old(reminders)
      ensures user.Some? ==>
        && record == Some(Appointment(newId, user.value, petId, name, Some(description), date, time, nowIso, nowIso))
        && !loading
      ensures user.Some? && insert.Ok? ==>
        && calledOnSubmit && error == ""
        && reminders == old(reminders) + OptionToSeq(ReminderFor(env, name, fireAt, now))
      ensures user.Some? && insert.Err? ==>
        && !calledOnSubmit && error == InsertFailed && reminders == old(reminders)
    {
      if user.None? {
        error := LoginRequired;
        return None, false;
      }
      loading := true;
      error := "";
      var appointment := Appointment(newId, user.value, petId, name, Some(description), date, time, nowIso, nowIso);
      record := Some(appointment);
      if insert.Err? {
        error := InsertFailed;
        calledOnSubmit := false;
      } else {
        reminders := reminders + OptionToSeq(ReminderFor(env, name, fireAt, now));
        calledOnSubmit := true;
      }
      loading := false;
    }
  }
}
