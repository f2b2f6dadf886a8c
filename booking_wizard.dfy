/** The five-step reservation dialog (`BookingModal`): which step is shown,
    the data collected so far, and whether a submission is in flight. */
module BookingWizard {
  import opened Seqs

  /** Date, party size, time, details, confirmation. */
  const StepCount := 5

  /** `Partial<BookingData>`: every field may be missing. A date is any
      selected day (a `Date` object, always truthy). */
  datatype BookingData = BookingData(
    date: Option<string>,
    startTime: Option<string>,
    partySize: Option<int>,
    customerName: Option<string>,
    customerEmail: Option<string>,
    customerPhone: Option<string>,
    specialRequests: Option<string>)

  const Empty := BookingData(None, None, None, None, None, None, None)

  /** JavaScript truthiness of an optional string and an optional number. */
  predicate Present(s: Option<string>)
  {
    s.Some? && s.value != ""
  }

  predicate NonZero(n: Option<int>)
  {
    n.Some? && n.value != 0
  }

  function Pick<T>(supplied: Option<T>, current: Option<T>): Option<T>
  {
    if supplied.Some? then supplied else current
  }

  /** `{ ...bookingData, ...data }`: supplied fields win. */
  function Merge(current: BookingData, update: BookingData): (r: BookingData)
    ensures update.date.Some? ==> r.date == update.date
    ensures update.date.None? ==> r.date == current.date
    ensures update.startTime.Some? ==> r.startTime == update.startTime
    ensures update.startTime.None? ==> r.startTime == current.startTime
    ensures update.partySize.Some? ==> r.partySize == update.partySize
    ensures update.partySize.None? ==> r.partySize == current.partySize
    ensures update.customerName.Some? ==> r.customerName == update.customerName
    ensures update.customerName.None? ==> r.customerName == current.customerName
    ensures update.customerEmail.Some? ==> r.customerEmail == update.customerEmail
    ensures update.customerEmail.None? ==> r.customerEmail == current.customerEmail
    ensures update.customerPhone.Some? ==> r.customerPhone == update.customerPhone
    ensures update.customerPhone.None? ==> r.customerPhone == current.customerPhone
    ensures update.specialRequests.Some? ==> r.specialRequests == update.specialRequests
    ensures update.specialRequests.None? ==> r.specialRequests == current.specialRequests
  {
    BookingData(
      Pick(update.date, current.date),
      Pick(update.startTime, current.startTime),
      Pick(update.partySize, current.partySize),
      Pick(update.customerName, current.customerName),
      Pick(update.customerEmail, current.customerEmail),
      Pick(update.customerPhone, current.customerPhone),
      Pick(update.specialRequests, current.specialRequests))
  }

  /** Merging nothing changes nothing, merging into nothing gives the
      update, and merging the same update twice is merging it once. */
  lemma MergeLaws(current: BookingData, update: BookingData, later: BookingData)
    ensures Merge(current, Empty) == current
    ensures Merge(Empty, update) == update
    ensures Merge(Merge(current, update), update) == Merge(current, update)
    ensures Merge(Merge(current, update), later) == Merge(current, Merge(update, later))
  {
  }

  /** `canProceed`: whether the current step has what it needs. */
  function CanProceed(step: int, data: BookingData): (ok: bool)
    ensures ok ==> 1 <= step <= 4
    ensures step == 1 ==> (ok <==> data.date.Some?)
    ensures step == 2 ==> (ok <==> NonZero(data.partySize))
    ensures step == 3 ==> (ok <==> Present(data.startTime))
    ensures step == 4 ==> (ok <==> Present(data.customerName) && Present(data.customerEmail))
  {
    match step
    case 1 => data.date.Some?
    case 2 => NonZero(data.partySize)
    case 3 => Present(data.startTime)
    case 4 => Present(data.customerName) && Present(data.customerEmail)
    case _ => false
  }

  /** Filling in a step's field never takes away another step's permission. */
  lemma CanProceedMonotone(step: int, data: BookingData, update: BookingData)
    requires CanProceed(step, data)
    requires !Present(update.startTime) ==> update.startTime.None?
    requires !Present(update.customerName) ==> update.customerName.None?
    requires !Present(update.customerEmail) ==> update.customerEmail.None?
    requires !NonZero(update.partySize) ==> update.partySize.None?
    ensures CanProceed(step, Merge(data, update))
  {
  }

  class Wizard {
    var currentStep: int
    var bookingData: BookingData
    var isSubmitting: bool

    predicate Valid()
      reads this
    {
      1 <= currentStep <= StepCount
    }

    /** The dialog opens on the first step with nothing filled in. */
    constructor()
      ensures Valid() && currentStep == 1 && bookingData == Empty && !isSubmitting
    {
      currentStep := 1;
      bookingData := Empty;
      isSubmitting := false;
    }

    /** `handleNext`: forward one step, except from the last. */
    method HandleNext()
      requires Valid()
      modifies this
      ensures Valid()
      ensures old(currentStep) < StepCount ==> currentStep == old(currentStep) + 1
      ensures old(currentStep) == StepCount ==> currentStep == StepCount
      ensures bookingData == old(bookingData) && isSubmitting == old(isSubmitting)
    {
      if currentStep < StepCount {
        currentStep := currentStep + 1;
      }
    }

    /** `handleBack`: back one step, except from the first. */
    method HandleBack()
      requires Valid()
      modifies this
      ensures Valid()
      ensures old(currentStep) > 1 ==> currentStep == old(currentStep) - 1
      ensures old(currentStep) == 1 ==> currentStep == 1
      ensures bookingData == old(bookingData) && isSubmitting == old(isSubmitting)
    {
      if currentStep > 1 {
        currentStep := currentStep - 1;
      }
    }

    /** `handleClose`: back to the initial state (the parent's `onClose`
        is not part of this model). */
    method HandleClose()
      modifies this
      ensures Valid()
      ensures currentStep == 1 && bookingData == Empty && !isSubmitting
    {
      currentStep := 1;
      bookingData := Empty;
      isSubmitting := false;
    }

    /** `updateBookingData`. */
    method UpdateBookingData(data: BookingData)
      requires Valid()
      modifies this
      ensures Valid()
      ensures bookingData == Merge(old(bookingData), data)
      ensures currentStep == old(currentStep) && isSubmitting == old(isSubmitting)
    {
      bookingData := Merge(bookingData, data);
    }

    /** `handleSubmit`: marks the submission in flight, then (after the
        simulated two-second call) shows the confirmation step. */
    method HandleSubmit()
      requires Valid()
      modifies this
      ensures Valid()
      ensures currentStep == StepCount && !isSubmitting
      ensures bookingData == old(bookingData)
    {
      isSubmitting := true;
      currentStep := StepCount;
      isSubmitting := false;
    }

    /** `canProceed` on the current state: never on the confirmation step. */
    function CanProceedNow(): (ok: bool)
      reads this
      ensures ok ==> 1 <= currentStep < StepCount
    {
      CanProceed(currentStep, bookingData)
    }
  }

  /** Next then back returns to the same step, except on the last step. */
  method NextThenBack(w: Wizard)
    requires w.Valid() && w.currentStep < StepCount
    modifies w
    ensures w.Valid() && w.currentStep == old(w.currentStep) && w.bookingData == old(w.bookingData)
  {
    w.HandleNext();
    w.HandleBack();
  }
}
