/** Table allocation and slot availability (src/services/supabaseBookingService.ts).

    The database reads of the source (`fetchTables`, ordered by table name,
    and `fetchBookingsForDate`, the confirmed bookings of one date) are
    parameters here: `tables` and `bookings` are the rows those queries
    returned, in the order they returned them. Times of day are the
    `HH:MM` strings the source stores; `ParseTime` is the source's
    `split(':').map(Number)` followed by `hours * 60 + minutes`, with `None`
    standing for the `NaN` a malformed string produces. */
module BookingService {
  import opened Seqs
  import opened Text

  // ---------------------------------------------------------------------
  // Records

  datatype Table = Table(id: string, name: string, capacity: int, section: string)

  datatype Status = Confirmed | Cancelled | Completed

  datatype Booking = Booking(
    id: string,
    tableId: string,
    customerName: string,
    customerEmail: string,
    customerPhone: Option<string>,
    bookingDate: string,   // zero-padded yyyy-MM-dd
    startTime: string,     // HH:MM
    endTime: string,       // HH:MM
    partySize: int,
    status: Status,
    specialRequests: Option<string>,
    createdAt: string)

  // ---------------------------------------------------------------------
  // Clock arithmetic

  const StartHour := 11
  const EndHour := 19
  const EndMinute := 30
  /** 11:00, the first offered start time, in minutes since midnight. */
  const FirstSlot := 660
  const SlotStep := 30
  const SlotCount := 18
  /** Every reservation lasts two and a half hours. */
  const Duration := 150
  const MinutesPerDay := 1440

  function DigitChar(d: nat): char
    requires d < 10
  {
    ('0' as int + d) as char
  }

  /** `n.toString().padStart(2, '0')` for `n < 100`. */
  function Pad2(n: nat): string
    requires n < 100
  {
    [DigitChar(n / 10), DigitChar(n % 10)]
  }

  function FormatHM(hour: nat, minute: nat): string
    requires hour < 100 && minute < 100
  {
    Pad2(hour) + ":" + Pad2(minute)
  }

  /** `format(date, 'HH:mm')` of the instant `t` minutes after midnight. */
  function FormatTime(t: nat): string
    requires t < MinutesPerDay
  {
    FormatHM(t / 60, t % 60)
  }

  predicate IsDigit(c: char)
  {
    '0' as int <= c as int <= '9' as int
  }

  predicate AllDigits(s: string)
  {
    |s| > 0 && forall i :: 0 <= i < |s| ==> IsDigit(s[i])
  }

  /** `Number(s)` of a non-empty decimal digit string. */
  function DigitsValue(s: string): nat
    requires forall i :: 0 <= i < |s| ==> IsDigit(s[i])
  {
    if s == [] then 0 else DigitsValue(s[..|s| - 1]) * 10 + DigitValue(s[|s| - 1])
  }

  function DigitValue(c: char): nat
    requires IsDigit(c)
  {
    c as int - '0' as int
  }

  /** `Number(field)` for one field of a split time: the empty string is 0,
      a decimal digit string its value, anything else `NaN` (`None`). */
  function FieldNumber(field: string): (r: Option<nat>)
    ensures field == "" ==> r == Some(0)
    ensures AllDigits(field) ==> r == Some(DigitsValue(field))
    ensures r.Some? ==> field == "" || AllDigits(field)
  {
    if field == "" then Some(0)
    else if AllDigits(field) then Some(DigitsValue(field))
    else None
  }

  /** `parseTime`: `const [hours, minutes] = time.split(':').map(Number)`,
      then `hours * 60 + minutes`. Fields after the second are ignored; a
      time without ':' has no minutes field, and `undefined` makes `NaN`. */
  function ParseTime(s: string): Option<nat>
  {
    var fields := Split(s, ':');
    if |fields| < 2 then None
    else
      match (FieldNumber(fields[0]), FieldNumber(fields[1]))
      case (Some(hours), Some(minutes)) => Some(hours * 60 + minutes)
      case _ => None
  }

  /** Splitting at a first separator: the piece before it, then the split of the rest. */
  lemma {:induction false} SplitAtFirst(p: string, q: string, sep: char)
    requires sep !in p
    ensures Split(p + [sep] + q, sep) == [p] + Split(q, sep)
  {
    var s := p + [sep] + q;
    if p == [] {
      assert s == [sep] + q;
      assert s[1..] == q;
    } else {
      assert s[0] == p[0] && s[1..] == p[1..] + [sep] + q;
      SplitAtFirst(p[1..], q, sep);
      assert [p[0]] + p[1..] == p;
    }
  }

  /** A string without the separator splits into itself alone. */
  lemma SplitNoSep(q: string, sep: char)
    requires sep !in q
    ensures Split(q, sep) == [q]
  {
    SplitJoin(q, sep);
  }

  lemma Pad2Value(n: nat)
    requires n < 100
    ensures AllDigits(Pad2(n)) && DigitsValue(Pad2(n)) == n
  {
    var p := Pad2(n);
    assert p[..1] == [DigitChar(n / 10)];
    assert p[..1][..0] == [];
    assert DigitValue(p[0]) == n / 10 && DigitValue(p[1]) == n % 10;
    assert DigitsValue(p[..1]) == n / 10;
  }

  /** Formatting then parsing a time gives back its minute count. */
  lemma FormatHMRoundTrip(hour: nat, minute: nat)
    requires hour < 100 && minute < 100
    ensures ParseTime(FormatHM(hour, minute)) == Some(hour * 60 + minute)
  {
    var h, m := Pad2(hour), Pad2(minute);
    assert FormatHM(hour, minute) == h + [':'] + m;
    SplitAtFirst(h, m, ':');
    SplitNoSep(m, ':');
    Pad2Value(hour);
    Pad2Value(minute);
  }

  /** A seconds field, or any further fields, do not change the parse:
      `"18:00:00"` reads as 18:00, as the destructuring keeps two fields. */
  lemma SecondsIgnored(hour: nat, minute: nat, rest: string)
    requires hour < 100 && minute < 100
    ensures ParseTime(FormatHM(hour, minute) + ":" + rest) == Some(hour * 60 + minute)
  {
    var h, m := Pad2(hour), Pad2(minute);
    assert FormatHM(hour, minute) + ":" + rest == h + [':'] + (m + [':'] + rest);
    SplitAtFirst(h, m + [':'] + rest, ':');
    SplitAtFirst(m, rest, ':');
    Pad2Value(hour);
    Pad2Value(minute);
  }

  /** An empty minutes field reads as 0, as `Number("")` does: `"18:"` is 18:00. */
  lemma EmptyMinutesAreZero(hour: nat)
    requires hour < 100
    ensures ParseTime(Pad2(hour) + ":") == Some(hour * 60)
  {
    var h := Pad2(hour);
    Pad2Value(hour);
    assert h + ":" == h + [':'] + "";
    SplitAtFirst(h, "", ':');
    SplitNoSep("", ':');
  }

  lemma FormatTimeRoundTrip(t: nat)
    requires t < MinutesPerDay
    ensures ParseTime(FormatTime(t)) == Some(t)
    ensures |FormatTime(t)| == 5 && FormatTime(t)[2] == ':'
  {
    FormatHMRoundTrip(t / 60, t % 60);
  }

  // ---------------------------------------------------------------------
  // generateTimeSlots

  /** The minute count of the `i`-th offered start time. */
  function SlotTime(i: nat): nat
  {
    FirstSlot + SlotStep * i
  }

  /** The offered start times: 11:00, 11:30, ..., 19:30. */
  function Slots(): seq<string>
  {
    seq(SlotCount, i requires 0 <= i < SlotCount => FormatTime(SlotTime(i)))
  }

  /** The `i`-th slot is the zero-padded `HH:MM` of `SlotTime(i)`. */
  lemma SlotAt(i: nat)
    requires i < SlotCount
    ensures |Slots()| == SlotCount && Slots()[i] == FormatTime(SlotTime(i))
    ensures |Slots()[i]| == 5 && Slots()[i][2] == ':' && ParseTime(Slots()[i]) == Some(SlotTime(i))
  {
    FormatTimeRoundTrip(SlotTime(i));
  }

  /** The slot grid: 18 zero-padded `HH:MM` strings from "11:00" to "19:30"
      whose parsed values rise in steps of 30 minutes. */
  lemma SlotGrid()
    ensures |Slots()| == 18 && Slots()[0] == "11:00" && Slots()[17] == "19:30"
    ensures forall i :: 0 <= i < |Slots()| ==> ParseTime(Slots()[i]) == Some(660 + 30 * i)
    ensures forall i, j :: 0 <= i < j < |Slots()| ==>
      ParseTime(Slots()[i]).value < ParseTime(Slots()[j]).value
  {
    assert FormatTime(660) == "11:00";
    assert FormatTime(1170) == "19:30";
    forall i | 0 <= i < |Slots()| ensures ParseTime(Slots()[i]) == Some(660 + 30 * i) {
      SlotAt(i);
    }
  }

  lemma SlotIsHourMinute(hour: nat, minute: nat)
    requires StartHour <= hour <= EndHour && (minute == 0 || minute == 30)
    ensures 2 * (hour - StartHour) + minute / 30 < SlotCount
    ensures Slots()[2 * (hour - StartHour) + minute / 30] == FormatHM(hour, minute)
  {
    var k := 2 * (hour - StartHour) + minute / 30;
    assert SlotTime(k) == hour * 60 + minute;
  }

  /** `generateTimeSlots`: two nested loops over hours and half hours. */
  method GenerateTimeSlots() returns (slots: seq<string>)
    ensures slots == Slots()
  {
    slots := [];
    var hour := StartHour;
    while hour <= EndHour
      invariant StartHour <= hour <= EndHour + 1
      invariant slots == Slots()[..2 * (hour - StartHour)]
    {
      var minute := 0;
      while minute < 60
        invariant minute == 0 || minute == 30 || minute == 60
        invariant slots == Slots()[..2 * (hour - StartHour) + minute / 30]
      {
        if hour == EndHour && minute > EndMinute {
          break;
        }
        SlotIsHourMinute(hour, minute);
        slots := slots + [FormatHM(hour, minute)];
        minute := minute + 30;
      }
      hour := hour + 1;
    }
  }

  // ---------------------------------------------------------------------
  // hasTimeConflict

  /** The half-open intervals [s1, e1) and [s2, e2) overlap. */
  predicate Overlaps(s1: int, e1: int, s2: int, e2: int)
  {
    s1 < e2 && e1 > s2
  }

  /** The source's overlap test for one existing booking; any unparsable
      time makes both comparisons false, as `NaN` does. */
  predicate ConflictsWith(startTime: string, endTime: string, b: Booking)
  {
    match (ParseTime(startTime), ParseTime(endTime), ParseTime(b.startTime), ParseTime(b.endTime))
    case (Some(ns), Some(ne), Some(es), Some(ee)) => Overlaps(ns, ne, es, ee)
    case _ => false
  }

  /** `hasTimeConflict`: `existingBookings.some(...)`, scanning from the front. */
  predicate HasTimeConflict(startTime: string, endTime: string, existing: seq<Booking>)
    decreases |existing|
  {
    existing != [] &&
    (ConflictsWith(startTime, endTime, existing[0]) || HasTimeConflict(startTime, endTime, existing[1..]))
  }

  lemma {:induction false} HasTimeConflictSpec(startTime: string, endTime: string, existing: seq<Booking>)
    ensures HasTimeConflict(startTime, endTime, existing) <==>
      exists i :: 0 <= i < |existing| && ConflictsWith(startTime, endTime, existing[i])
  {
    if existing != [] {
      HasTimeConflictSpec(startTime, endTime, existing[1..]);
      if ConflictsWith(startTime, endTime, existing[0]) {
        assert ConflictsWith(startTime, endTime, existing[0]);
      } else if exists i :: 0 <= i < |existing| && ConflictsWith(startTime, endTime, existing[i]) {
        var i :| 0 <= i < |existing| && ConflictsWith(startTime, endTime, existing[i]);
        assert existing[1..][i - 1] == existing[i];
      }
    }
  }

  /** Overlap is symmetric, and intervals that only touch do not overlap. */
  lemma OverlapFacts(s1: int, e1: int, s2: int, e2: int)
    ensures Overlaps(s1, e1, s2, e2) <==> Overlaps(s2, e2, s1, e1)
    ensures e1 == s2 ==> !Overlaps(s1, e1, s2, e2)
    ensures e2 == s1 ==> !Overlaps(s1, e1, s2, e2)
  {
  }

  /** A candidate against the booking list of one table, read as minutes:
      a conflict is a booking whose interval overlaps [start, end). */
  lemma ConflictInMinutes(start: nat, end: nat, existing: seq<Booking>)
    requires start < MinutesPerDay && end < MinutesPerDay
    ensures HasTimeConflict(FormatTime(start), FormatTime(end), existing) <==>
      exists i :: 0 <= i < |existing| &&
        ParseTime(existing[i].startTime).Some? && ParseTime(existing[i].endTime).Some? &&
        Overlaps(start, end, ParseTime(existing[i].startTime).value, ParseTime(existing[i].endTime).value)
  {
    FormatTimeRoundTrip(start);
    FormatTimeRoundTrip(end);
    HasTimeConflictSpec(FormatTime(start), FormatTime(end), existing);
  }

  // ---------------------------------------------------------------------
  // getAvailableTimeSlots

  datatype SlotAvailability = SlotAvailability(time: string, available: bool, tableSize: Option<int>)

  /** `tables.filter(table => table.capacity >= partySize)`. */
  function SuitableTables(tables: seq<Table>, partySize: int): seq<Table>
  {
    Filter(tables, (t: Table) => t.capacity >= partySize)
  }

  /** `bookings.filter(booking => booking.table_id === tableId)`. */
  function TableBookings(bookings: seq<Booking>, tableId: string): seq<Booking>
  {
    Filter(bookings, (b: Booking) => b.tableId == tableId)
  }

  /** End of the reservation that starts `t` minutes after midnight. */
  function EndOf(t: nat): string
    requires t < MinutesPerDay
  {
    FormatTime((t + Duration) % MinutesPerDay)
  }

  /** No booking of table `t` conflicts with [startTime, endTime). */
  predicate IsFree(t: Table, bookings: seq<Booking>, startTime: string, endTime: string)
  {
    !HasTimeConflict(startTime, endTime, TableBookings(bookings, t.id))
  }

  /** The table the source's loop stops at: the first free candidate. */
  function FirstFreeTable(candidates: seq<Table>, bookings: seq<Booking>, startTime: string, endTime: string): Option<Table>
  {
    if candidates == [] then None
    else if IsFree(candidates[0], bookings, startTime, endTime) then Some(candidates[0])
    else FirstFreeTable(candidates[1..], bookings, startTime, endTime)
  }

  /** What the source reports for the slot starting `t` minutes after midnight. */
  function SlotStatus(tables: seq<Table>, bookings: seq<Booking>, partySize: int, t: nat): SlotAvailability
    requires t < MinutesPerDay
  {
    var found := FirstFreeTable(SuitableTables(tables, partySize), bookings, FormatTime(t), EndOf(t));
    SlotAvailability(FormatTime(t), found.Some?, if found.Some? then Some(found.value.capacity) else None)
  }

  lemma {:induction false} FirstFreeTableOfSuffix(candidates: seq<Table>, bookings: seq<Booking>, s: string, e: string, j: nat)
    requires j <= |candidates|
    requires forall k :: 0 <= k < j ==> !IsFree(candidates[k], bookings, s, e)
    ensures FirstFreeTable(candidates, bookings, s, e) == FirstFreeTable(candidates[j..], bookings, s, e)
  {
    if j > 0 {
      assert candidates[1..][j - 1..] == candidates[j..];
      FirstFreeTableOfSuffix(candidates[1..], bookings, s, e, j - 1);
    }
  }

  /** The inner loop of `getAvailableTimeSlots`: the first candidate table
      none of whose bookings conflicts with [startTime, endTime). */
  method FindFreeTable(suitableTables: seq<Table>, bookings: seq<Booking>, startTime: string, endTime: string)
    returns (availableTable: Option<Table>)
    ensures availableTable == FirstFreeTable(suitableTables, bookings, startTime, endTime)
  {
    availableTable := None;
    var j := 0;
    while j < |suitableTables|
      invariant 0 <= j <= |suitableTables|
      invariant forall k :: 0 <= k < j ==> !IsFree(suitableTables[k], bookings, startTime, endTime)
    {
      var tableBookings := TableBookings(bookings, suitableTables[j].id);
      if !HasTimeConflict(startTime, endTime, tableBookings) {
        availableTable := Some(suitableTables[j]);
        break;
      }
      j := j + 1;
    }
    FirstFreeTableOfSuffix(suitableTables, bookings, startTime, endTime, j);
  }

  /** The body of the `timeSlots.map` callback for the `i`-th slot. */
  method CheckSlot(tables: seq<Table>, suitableTables: seq<Table>, bookings: seq<Booking>, partySize: int,
                   i: nat, timeSlot: string)
    returns (status: SlotAvailability)
    requires i < SlotCount && timeSlot == Slots()[i]
    requires suitableTables == SuitableTables(tables, partySize)
    ensures status == SlotStatus(tables, bookings, partySize, SlotTime(i))
  {
    SlotAt(i);
    ghost var t := SlotTime(i);
    assert t < MinutesPerDay;
    var start := ParseTime(timeSlot).value;
    assert start == t && timeSlot == FormatTime(t);
    var endTime := FormatTime((start + Duration) % MinutesPerDay);
    assert endTime == EndOf(t);
    var availableTable := FindFreeTable(suitableTables, bookings, timeSlot, endTime);
    var tableSize := if availableTable.Some? then Some(availableTable.value.capacity) else None;
    status := SlotAvailability(timeSlot, availableTable.Some?, tableSize);
  }

  /** `getAvailableTimeSlots`, after its three fetches. */
  method GetAvailableTimeSlots(tables: seq<Table>, bookings: seq<Booking>, partySize: int)
    returns (result: seq<SlotAvailability>)
    ensures |result| == SlotCount
    ensures forall i :: 0 <= i < SlotCount ==> result[i] == SlotStatus(tables, bookings, partySize, SlotTime(i))
  {
    var timeSlots := GenerateTimeSlots();
    var suitableTables := SuitableTables(tables, partySize);
    result := [];
    var i := 0;
    while i < |timeSlots|
      invariant |timeSlots| == SlotCount
      invariant 0 <= i <= |timeSlots|
      invariant |result| == i
      invariant forall k :: 0 <= k < i ==> result[k] == SlotStatus(tables, bookings, partySize, SlotTime(k))
    {
      var status := CheckSlot(tables, suitableTables, bookings, partySize, i, timeSlots[i]);
      result := result + [status];
      i := i + 1;
    }
  }

  /** Each reported slot carries the offered start time it stands for. */
  lemma SlotStatusTime(tables: seq<Table>, bookings: seq<Booking>, partySize: int, i: nat)
    requires i < SlotCount
    ensures SlotStatus(tables, bookings, partySize, SlotTime(i)).time == Slots()[i]
  {
    SlotAt(i);
  }

  /** Table `t` seats the party and is free over [s, e). */
  predicate Fits(t: Table, partySize: int, bookings: seq<Booking>, s: string, e: string)
  {
    t.capacity >= partySize && IsFree(t, bookings, s, e)
  }

  /** Index in `tables` of the first table that fits, or `|tables|`. */
  function FirstFitIndex(tables: seq<Table>, partySize: int, bookings: seq<Booking>, s: string, e: string): (k: nat)
    ensures k <= |tables|
    ensures k < |tables| ==> Fits(tables[k], partySize, bookings, s, e)
    ensures forall j :: 0 <= j < k ==> !Fits(tables[j], partySize, bookings, s, e)
  {
    if tables == [] then 0
    else if Fits(tables[0], partySize, bookings, s, e) then 0
    else 1 + FirstFitIndex(tables[1..], partySize, bookings, s, e)
  }

  /** Scanning the suitable tables for a free one stops at the first table,
      in fetched order, that both seats the party and is free. */
  lemma {:induction false} FirstFreeSuitable(tables: seq<Table>, partySize: int, bookings: seq<Booking>, s: string, e: string)
    ensures var k := FirstFitIndex(tables, partySize, bookings, s, e);
      FirstFreeTable(SuitableTables(tables, partySize), bookings, s, e)
        == if k < |tables| then Some(tables[k]) else None
  {
    if tables != [] {
      FirstFreeSuitable(tables[1..], partySize, bookings, s, e);
      if tables[0].capacity >= partySize {
        assert SuitableTables(tables, partySize) == [tables[0]] + SuitableTables(tables[1..], partySize);
      } else {
        assert SuitableTables(tables, partySize) == SuitableTables(tables[1..], partySize);
      }
    }
  }

  /** A slot is available iff some table with room for the party has no
      conflicting booking over [slot, slot + 150); the reported size is the
      capacity of the first such table in fetched (name) order. */
  lemma SlotStatusSpec(tables: seq<Table>, bookings: seq<Booking>, partySize: int, t: nat)
    requires t < MinutesPerDay
    ensures var st := SlotStatus(tables, bookings, partySize, t);
      var k := FirstFitIndex(tables, partySize, bookings, FormatTime(t), EndOf(t));
      st.time == FormatTime(t)
      && (st.available <==> exists i :: 0 <= i < |tables| && Fits(tables[i], partySize, bookings, FormatTime(t), EndOf(t)))
      && (st.available ==> k < |tables| && st.tableSize == Some(tables[k].capacity))
      && (!st.available ==> st.tableSize.None?)
  {
    FirstFreeSuitable(tables, partySize, bookings, FormatTime(t), EndOf(t));
  }

  /** If no table seats the party, every slot is reported unavailable. */
  lemma NoSuitableTableNoSlot(tables: seq<Table>, bookings: seq<Booking>, partySize: int)
    requires forall t :: t in tables ==> t.capacity < partySize
    ensures forall i :: 0 <= i < SlotCount ==>
      !SlotStatus(tables, bookings, partySize, SlotTime(i)).available
      && SlotStatus(tables, bookings, partySize, SlotTime(i)).tableSize.None?
  {
    FilterNone(tables, (t: Table) => t.capacity >= partySize);
  }

  // ---------------------------------------------------------------------
  // getOptimalTable

  /** Index of the first table of least capacity: where a stable sort by
      capacity takes its first element from. */
  function FirstMinIndex(ts: seq<Table>): (k: nat)
    requires |ts| > 0
    ensures k < |ts|
    ensures forall j :: 0 <= j < |ts| ==> ts[k].capacity <= ts[j].capacity
    ensures forall j :: 0 <= j < k ==> ts[j].capacity > ts[k].capacity
  {
    if |ts| == 1 then 0
    else
      var m := FirstMinIndex(ts[..|ts| - 1]);
      if ts[|ts| - 1].capacity < ts[m].capacity then |ts| - 1 else m
  }

  /** One more table: it becomes the minimum only when strictly smaller. */
  lemma FirstMinIndexStep(ts: seq<Table>, i: nat)
    requires 1 <= i < |ts|
    ensures FirstMinIndex(ts[..i + 1]) ==
      if ts[i].capacity < ts[FirstMinIndex(ts[..i])].capacity then i else FirstMinIndex(ts[..i])
  {
    assert ts[..i + 1][..i] == ts[..i];
  }

  /** `getOptimalTable` as a value: `None` when no table has room. */
  function OptimalTable(tables: seq<Table>, partySize: int): Option<Table>
  {
    var suitable := SuitableTables(tables, partySize);
    if suitable == [] then None else Some(suitable[FirstMinIndex(suitable)])
  }

  /** Best fit: `None` iff no table has room; otherwise a table that seats
      the party, no larger than any other that does, and the first of least
      capacity among the suitable tables in fetched order. */
  lemma OptimalTableSpec(tables: seq<Table>, partySize: int)
    ensures OptimalTable(tables, partySize).None? <==> forall t :: t in tables ==> t.capacity < partySize
    ensures OptimalTable(tables, partySize).Some? ==>
      var t := OptimalTable(tables, partySize).value;
      var suitable := SuitableTables(tables, partySize);
      t in tables && t.capacity >= partySize
      && (forall u :: u in tables && u.capacity >= partySize ==> t.capacity <= u.capacity)
      && exists k :: 0 <= k < |suitable| && suitable[k] == t && forall j :: 0 <= j < k ==> suitable[j].capacity > t.capacity
  {
    var suitable := SuitableTables(tables, partySize);
    if suitable == [] {
      forall t | t in tables ensures t.capacity < partySize {
        assert t !in suitable;
      }
    } else {
      var k := FirstMinIndex(suitable);
      assert suitable[k] in suitable;
      forall u | u in tables && u.capacity >= partySize ensures suitable[k].capacity <= u.capacity {
        assert u in suitable;
        var i :| 0 <= i < |suitable| && suitable[i] == u;
      }
    }
  }

  /** A smaller party never gets a larger best-fit table. */
  lemma BestFitMonotone(tables: seq<Table>, small: int, large: int)
    requires small <= large
    requires OptimalTable(tables, large).Some?
    ensures OptimalTable(tables, small).Some?
    ensures OptimalTable(tables, small).value.capacity <= OptimalTable(tables, large).value.capacity
  {
    OptimalTableSpec(tables, large);
    OptimalTableSpec(tables, small);
    var t := OptimalTable(tables, large).value;
    assert t in tables && t.capacity >= small;
  }

  /** `getOptimalTable`: filter, then take the least capacity (the source
      sorts the filtered array in place and takes element 0). */
  method GetOptimalTable(tables: seq<Table>, partySize: int) returns (optimal: Option<Table>)
    ensures optimal == OptimalTable(tables, partySize)
  {
    var suitableTables := SuitableTables(tables, partySize);
    if |suitableTables| == 0 {
      return None;
    }
    var best := suitableTables[0];
    var i := 1;
    while i < |suitableTables|
      invariant 1 <= i <= |suitableTables|
      invariant best == suitableTables[FirstMinIndex(suitableTables[..i])]
    {
      FirstMinIndexStep(suitableTables, i);
      if suitableTables[i].capacity < best.capacity {
        best := suitableTables[i];
      }
      i := i + 1;
    }
    assert suitableTables[..i] == suitableTables;
    return Some(best);
  }

  // ---------------------------------------------------------------------
  // createBooking (the record it inserts)

  datatype BookingRequest = BookingRequest(
    date: string,
    startTime: string,
    partySize: int,
    customerName: string,
    customerEmail: string,
    customerPhone: Option<string>,
    specialRequests: Option<string>)

  /** The row `createBooking` inserts (the database adds id and created_at). */
  datatype NewBooking = NewBooking(
    tableId: string,
    customerName: string,
    customerEmail: string,
    customerPhone: Option<string>,
    bookingDate: string,
    startTime: string,
    endTime: string,
    partySize: int,
    status: Status,
    specialRequests: Option<string>)

  datatype CreateError =
    | NoSuitableTable       // "No suitable table available"
    | InvalidTimeValue      // `format` of the Invalid Date an unparsable start time gives

  datatype CreateResult = Created(booking: NewBooking) | Failed(error: CreateError)

  /** `createBooking` up to the insert: pick the best-fit table, compute the
      end time, build the row. No existing booking is looked at. */
  function CreateBooking(tables: seq<Table>, req: BookingRequest): CreateResult
  {
    match OptimalTable(tables, req.partySize)
    case None => Failed(NoSuitableTable)
    case Some(table) =>
      match ParseTime(req.startTime)
      case None => Failed(InvalidTimeValue)
      case Some(start) =>
        var endTime := FormatTime((start + Duration) % MinutesPerDay);
        Created(NewBooking(table.id, req.customerName, req.customerEmail, req.customerPhone,
                           req.date, req.startTime, endTime, req.partySize, Confirmed, req.specialRequests))
  }

  /** The failure cases of `createBooking`: no table seats the party, or
      (with a table found) the start time does not parse. */
  lemma CreateBookingErrors(tables: seq<Table>, req: BookingRequest)
    ensures CreateBooking(tables, req) == Failed(NoSuitableTable) <==>
      forall t :: t in tables ==> t.capacity < req.partySize
    ensures CreateBooking(tables, req) == Failed(InvalidTimeValue) <==>
      (exists t :: t in tables && t.capacity >= req.partySize) && ParseTime(req.startTime).None?
  {
    OptimalTableSpec(tables, req.partySize);
  }

  /** The row `createBooking` inserts: confirmed, with the request's fields,
      on the best-fit table. */
  lemma CreateBookingRow(tables: seq<Table>, req: BookingRequest)
    requires CreateBooking(tables, req).Created?
    ensures var b := CreateBooking(tables, req).booking;
      b.status == Confirmed && b.partySize == req.partySize && b.startTime == req.startTime
      && b.bookingDate == req.date && b.customerName == req.customerName && b.customerEmail == req.customerEmail
      && b.customerPhone == req.customerPhone && b.specialRequests == req.specialRequests
      && exists t :: t in tables && t.id == b.tableId && t.capacity >= req.partySize
           && forall u :: u in tables && u.capacity >= req.partySize ==> t.capacity <= u.capacity
  {
    OptimalTableSpec(tables, req.partySize);
    var t := OptimalTable(tables, req.partySize).value;
    assert t.id == CreateBooking(tables, req).booking.tableId;
  }

  /** The inserted row ends two and a half hours after its start, modulo
      midnight: its end time parses back to that minute count. */
  lemma CreateBookingEnd(tables: seq<Table>, req: BookingRequest)
    requires CreateBooking(tables, req).Created?
    ensures ParseTime(req.startTime).Some?
    ensures ParseTime(CreateBooking(tables, req).booking.endTime)
      == Some((ParseTime(req.startTime).value + Duration) % MinutesPerDay)
  {
    var start := ParseTime(req.startTime).value;
    FormatTimeRoundTrip((start + Duration) % MinutesPerDay);
  }

  /** The inserted row read back as a booking with the given identity. */
  function Persisted(b: NewBooking, id: string, createdAt: string): Booking
  {
    Booking(id, b.tableId, b.customerName, b.customerEmail, b.customerPhone, b.bookingDate,
            b.startTime, b.endTime, b.partySize, b.status, b.specialRequests, createdAt)
  }

  /** Double booking is not prevented: submitting the same request twice
      puts two confirmed bookings on the same table, date and overlapping
      interval (for any start that does not wrap past midnight). */
  lemma RepeatedRequestDoubleBooks(tables: seq<Table>, req: BookingRequest, id1: string, id2: string, at: string)
    requires CreateBooking(tables, req).Created?
    requires ParseTime(req.startTime).value + Duration < MinutesPerDay
    ensures var first := Persisted(CreateBooking(tables, req).booking, id1, at);
      var second := CreateBooking(tables, req);
      second.Created? && second.booking.tableId == first.tableId
      && second.booking.bookingDate == first.bookingDate && first.status == Confirmed
      && ConflictsWith(second.booking.startTime, second.booking.endTime, first)
  {
    CreateBookingEnd(tables, req);
  }

  /** Availability and commit agree on success: a slot reported available
      can be committed for the same party size. */
  lemma AvailableSlotCommits(tables: seq<Table>, bookings: seq<Booking>, req: BookingRequest, i: nat)
    requires i < SlotCount && req.startTime == Slots()[i]
    requires SlotStatus(tables, bookings, req.partySize, SlotTime(i)).available
    ensures CreateBooking(tables, req).Created?
  {
    SlotStatusSpec(tables, bookings, req.partySize, SlotTime(i));
    SlotGrid();
  }

  /** The 18:00 slot, as strings and as minute counts. */
  lemma SixPmSlot()
    ensures SlotTime(14) == 1080 && FormatTime(1080) == "18:00" && EndOf(1080) == "20:30"
    ensures ParseTime("18:00") == Some(1080) && ParseTime("20:30") == Some(1230)
  {
    SixPmFormats();
    FormatHMRoundTrip(18, 0);
    FormatHMRoundTrip(20, 30);
  }

  lemma SixPmFormats()
    ensures SlotTime(14) == 1080
    ensures FormatTime(1080) == FormatHM(18, 0) == "18:00"
    ensures EndOf(1080) == FormatHM(20, 30) == "20:30"
  {
    assert Pad2(18) == "18" && Pad2(0) == "00";
    assert Pad2(20) == "20" && Pad2(30) == "30";
  }

  /** Two tables in name order: a busy two-seat "a" and a free four-seat "b". */
  const ExampleTables := [Table("a", "A", 2, "main"), Table("b", "B", 4, "main")]

  /** The confirmed booking that occupies table "a" from 18:00 to 20:30. */
  const ExampleBooking := Booking("x", "a", "Ann", "ann@example.com", None, "2025-06-01",
                                  "18:00", "20:30", 2, Confirmed, None, "")

  /** A request for two at 18:00 on the same day. */
  const ExampleRequest := BookingRequest("2025-06-01", "18:00", 2, "Bob", "bob@example.com", None, None)

  /** Table "a" is taken from 18:00 to 20:30, table "b" is free. */
  lemma ExampleTableABusy()
    ensures !IsFree(ExampleTables[0], [ExampleBooking], "18:00", "20:30")
  {
    SixPmSlot();
    assert TableBookings([ExampleBooking], "a") == [ExampleBooking];
    assert ConflictsWith("18:00", "20:30", ExampleBooking);
  }

  lemma ExampleTableBFree()
    ensures IsFree(ExampleTables[1], [ExampleBooking], "18:00", "20:30")
  {
    assert TableBookings([ExampleBooking], "b") == [];
  }

  /** "18:00:00" reads as 18:00. */
  lemma SixPmWithSeconds()
    ensures ParseTime("18:00:00") == Some(1080)
  {
    SixPmFormats();
    SecondsIgnored(18, 0, "00");
    assert FormatHM(18, 0) + ":" + "00" == "18:00:00";
  }

  /** "20:30:00" reads as 20:30. */
  lemma HalfPastEightWithSeconds()
    ensures ParseTime("20:30:00") == Some(1230)
  {
    SixPmFormats();
    SecondsIgnored(20, 30, "00");
    assert FormatHM(20, 30) + ":" + "00" == "20:30:00";
  }

  /** A booking stored with seconds, as a `time` column returns it, still
      conflicts with the 18:00 sitting: the seconds field is ignored. */
  lemma SecondsBookingConflicts()
    ensures ConflictsWith("18:00", "20:30", ExampleBooking.(startTime := "18:00:00", endTime := "20:30:00"))
  {
    SixPmSlot();
    SixPmWithSeconds();
    HalfPastEightWithSeconds();
  }

  /** The grid offers 18:00 to a party of two, on the four-seat table. */
  lemma ExampleSlotOffered()
    ensures var st := SlotStatus(ExampleTables, [ExampleBooking], 2, SlotTime(14));
      st.available && st.tableSize == Some(4)
  {
    var tables := ExampleTables;
    SixPmFormats();
    assert SuitableTables(tables, 2) == tables by {
      FilterAll(tables, (t: Table) => t.capacity >= 2);
    }
    ExampleTableABusy();
    ExampleTableBFree();
    assert FirstFreeTable(tables[1..], [ExampleBooking], "18:00", "20:30") == Some(tables[1]);
    assert FirstFreeTable(tables, [ExampleBooking], "18:00", "20:30") == Some(tables[1]);
  }

  /** Best fit picks the two-seat table. */
  lemma ExampleOptimal()
    ensures OptimalTable(ExampleTables, 2) == Some(ExampleTables[0])
  {
    assert SuitableTables(ExampleTables, 2) == ExampleTables by {
      FilterAll(ExampleTables, (t: Table) => t.capacity >= 2);
    }
    assert FirstMinIndex(ExampleTables) == 0;
  }

  /** The commit seats the same party on the two-seat table, over the
      existing booking. */
  lemma ExampleCommitOverlaps()
    ensures var r := CreateBooking(ExampleTables, ExampleRequest);
      r.Created? && r.booking.tableId == "a" && ConflictsWith(r.booking.startTime, r.booking.endTime, ExampleBooking)
  {
    ExampleOptimal();
    SixPmSlot();
    var r := CreateBooking(ExampleTables, ExampleRequest);
    assert r.Created? && r.booking.tableId == "a";
    assert r.booking.startTime == "18:00";
    assert r.booking.endTime == EndOf(1080) == "20:30";
    assert ConflictsWith("18:00", "20:30", ExampleBooking);
  }

  /** ... but not on the table: with a busy two-seat table "a" and a free
      four-seat table "b", 18:00 is offered to a party of two on "b", while
      the commit puts the party on "a", over the existing booking. */
  lemma AvailabilityAndCommitDisagree()
    ensures var st := SlotStatus(ExampleTables, [ExampleBooking], 2, SlotTime(14));
      var r := CreateBooking(ExampleTables, ExampleRequest);
      st.available && st.tableSize == Some(4)
      && r.Created? && r.booking.tableId == "a" && ConflictsWith(r.booking.startTime, r.booking.endTime, ExampleBooking)
  {
    ExampleSlotOffered();
    ExampleCommitOverlaps();
  }

  // ---------------------------------------------------------------------
  // getNextReservationForTable

  /** Later date, or the same date with a later start (string comparison). */
  predicate IsUpcoming(b: Booking, currentDate: string, currentTime: string)
  {
    StrLt(currentDate, b.bookingDate) || (b.bookingDate == currentDate && StrLt(currentTime, b.startTime))
  }

  /** The sort comparator is negative: earlier date, or same date and earlier start. */
  predicate Earlier(a: Booking, b: Booking)
  {
    if a.bookingDate != b.bookingDate then StrLt(a.bookingDate, b.bookingDate) else StrLt(a.startTime, b.startTime)
  }

  lemma EarlierOrder(a: Booking, b: Booking, c: Booking)
    ensures !Earlier(a, a)
    ensures Earlier(a, b) && Earlier(b, c) ==> Earlier(a, c)
  {
    StrLtIrreflexive(a.startTime);
    if Earlier(a, b) && Earlier(b, c) {
      if a.bookingDate == b.bookingDate && b.bookingDate == c.bookingDate {
        StrLtTransitive(a.startTime, b.startTime, c.startTime);
      } else if a.bookingDate == b.bookingDate {
        assert StrLt(a.bookingDate, c.bookingDate);
      } else if b.bookingDate == c.bookingDate {
        assert StrLt(a.bookingDate, c.bookingDate);
      } else {
        StrLtTransitive(a.bookingDate, b.bookingDate, c.bookingDate);
        if a.bookingDate == c.bookingDate { StrLtIrreflexive(a.bookingDate); StrLtTransitive(a.bookingDate, b.bookingDate, a.bookingDate); }
      }
    }
  }

  /** The head of the stable sort: the first booking no other precedes. */
  function FirstEarliest(bs: seq<Booking>): Booking
    requires |bs| > 0
  {
    if |bs| == 1 then bs[0]
    else
      var m := FirstEarliest(bs[..|bs| - 1]);
      if Earlier(bs[|bs| - 1], m) then bs[|bs| - 1] else m
  }

  lemma {:induction false} FirstEarliestSpec(bs: seq<Booking>)
    requires |bs| > 0
    ensures FirstEarliest(bs) in bs
    ensures forall c :: c in bs ==> !Earlier(c, FirstEarliest(bs))
  {
    if |bs| == 1 {
      EarlierOrder(bs[0], bs[0], bs[0]);
    } else {
      var init := bs[..|bs| - 1];
      var last := bs[|bs| - 1];
      assert bs == init + [last];
      FirstEarliestSpec(init);
      var m := FirstEarliest(init);
      var r := FirstEarliest(bs);
      EarlierOrder(last, last, last);
      if Earlier(last, m) {
        assert r == last;
        forall c | c in bs ensures !Earlier(c, r) {
          if c != last {
            assert c in init;
            EarlierOrder(c, last, m);
          }
        }
      } else {
        assert r == m;
        forall c | c in bs ensures !Earlier(c, r) {
          if c != last {
            assert c in init;
          }
        }
      }
    }
  }

  /** Preceding one booking and not following it by another: `a` precedes `c`. */
  lemma EarlierThrough(a: Booking, b: Booking, c: Booking)
    requires Earlier(a, b) && !Earlier(c, b)
    ensures Earlier(a, c)
  {
    StrLtTotal(a.bookingDate, c.bookingDate);
    StrLtTotal(a.startTime, c.startTime);
    EarlierOrder(c, a, b);
  }

  /** The stable sort's tie-break: the head is the first booking, in input
      order, of its (date, start) group; every booking before it is later. */
  lemma {:induction false} FirstEarliestStable(bs: seq<Booking>)
    requires |bs| > 0
    ensures exists k :: 0 <= k < |bs| && bs[k] == FirstEarliest(bs) &&
                        forall j :: 0 <= j < k ==> Earlier(FirstEarliest(bs), bs[j])
  {
    if |bs| == 1 {
      assert bs[0] == FirstEarliest(bs);
    } else {
      var init := bs[..|bs| - 1];
      var last := bs[|bs| - 1];
      FirstEarliestStable(init);
      FirstEarliestSpec(init);
      var m := FirstEarliest(init);
      var k0 :| 0 <= k0 < |init| && init[k0] == m && forall j :: 0 <= j < k0 ==> Earlier(m, init[j]);
      if Earlier(last, m) {
        forall j | 0 <= j < |bs| - 1
          ensures Earlier(last, bs[j])
        {
          assert bs[j] == init[j] && init[j] in init;
          EarlierThrough(last, m, init[j]);
        }
        assert bs[|bs| - 1] == FirstEarliest(bs);
      } else {
        assert bs[k0] == init[k0] == FirstEarliest(bs);
        forall j | 0 <= j < k0
          ensures Earlier(FirstEarliest(bs), bs[j])
        {
          assert bs[j] == init[j];
        }
      }
    }
  }

  /** `getNextReservationForTable`, with "now" passed in as date and time strings. */
  function NextReservationForTable(tableId: string, allBookings: seq<Booking>, currentDate: string, currentTime: string): Option<Booking>
  {
    var upcoming := Filter(TableBookings(allBookings, tableId), (b: Booking) => IsUpcoming(b, currentDate, currentTime));
    if upcoming == [] then None else Some(FirstEarliest(upcoming))
  }

  /** `None` iff the table has no upcoming booking; otherwise an upcoming
      booking of that table with the least (date, start time). */
  lemma NextReservationSpec(tableId: string, allBookings: seq<Booking>, currentDate: string, currentTime: string)
    ensures var r := NextReservationForTable(tableId, allBookings, currentDate, currentTime);
      (r.None? <==> forall b :: b in allBookings && b.tableId == tableId ==> !IsUpcoming(b, currentDate, currentTime))
      && (r.Some? ==>
            r.value in allBookings && r.value.tableId == tableId && IsUpcoming(r.value, currentDate, currentTime)
            && forall c :: c in allBookings && c.tableId == tableId && IsUpcoming(c, currentDate, currentTime) ==>
                 !Earlier(c, r.value))
  {
    var upcoming := Filter(TableBookings(allBookings, tableId), (b: Booking) => IsUpcoming(b, currentDate, currentTime));
    if upcoming != [] {
      FirstEarliestSpec(upcoming);
    } else {
      forall b | b in allBookings && b.tableId == tableId ensures !IsUpcoming(b, currentDate, currentTime) {
        assert b in TableBookings(allBookings, tableId);
      }
    }
  }
}
