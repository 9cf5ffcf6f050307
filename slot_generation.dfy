/** generateTimeSlots (components/client/service-booking.tsx:317-430): the slots a
    client is offered for one service on one day. Sixteen candidate starts, 09:00
    to 16:30 every 30 minutes; a candidate is dropped by the end-time rule of line
    393 and when it clashes with a blocked range; the rest are offered in order.

    The end-time rule is modelled as written: the inner `endHour` (line 389)
    shadows the business-hours bound (line 372), so the comparison
    `endHour >= endHour` always holds and a candidate is dropped exactly when its
    end minute is not zero. The close-of-business rule the comment at line 392
    describes is kept apart, as SkipRule.Intended, and is not what the method runs. */
module SlotGeneration {
  import opened ClockText

  /** A slot offered to the client (TimeSlot, lines 45-49). */
  datatype Slot = Slot(start: string, end: string, formatted: string)

  /** The start_time and end_time of an existing booking, as the table holds them. */
  datatype Blocked = Blocked(start: string, end: string)

  /** Which end-time rule drops candidates: the one line 393 runs, or the
      close-of-business rule its comment describes. */
  datatype SkipRule = AsWritten | Intended

  const StartHour: nat := 9
  const EndHour: nat := 17

  /** A candidate start of the nested loops of lines 382-383: 09:00 to 16:30, every
      30 minutes. */
  predicate OnGrid(x: nat)
  {
    StartHour * 60 <= x < EndHour * 60 && x % 30 == 0
  }

  /** Line 393 as written: the inner `endHour` is compared with itself. */
  predicate SkipAsWritten(startMinutes: nat, duration: nat)
  {
    var endMinutes := startMinutes + duration;
    var endHour := endMinutes / 60;
    var endMinute := endMinutes % 60;
    endHour >= endHour && endMinute > 0
  }

  /** What the comment at line 392 says: skip when the slot ends after 17:00. */
  predicate SkipAfterClose(startMinutes: nat, duration: nat)
  {
    startMinutes + duration > EndHour * 60
  }

  predicate Skip(rule: SkipRule, startMinutes: nat, duration: nat)
  {
    match rule
    case AsWritten => SkipAsWritten(startMinutes, duration)
    case Intended => SkipAfterClose(startMinutes, duration)
  }

  /** The three-clause test of lines 399-403 on the time strings. */
  predicate OverlapsBlocked(startTime: string, endTime: string, b: Blocked)
  {
    (TextLessEq(b.start, startTime) && TextLess(startTime, b.end)) ||
    (TextLess(b.start, endTime) && TextLessEq(endTime, b.end)) ||
    (TextLessEq(startTime, b.start) && TextLessEq(b.end, endTime))
  }

  /** `blockedTimes.some(...)` (line 398). */
  predicate AnyOverlap(startTime: string, endTime: string, blocked: seq<Blocked>)
  {
    exists i :: 0 <= i < |blocked| && OverlapsBlocked(startTime, endTime, blocked[i])
  }

  /** Whether the candidate starting at `start` is offered. */
  predicate Keep(rule: SkipRule, start: nat, duration: nat, blocked: seq<Blocked>)
  {
    !Skip(rule, start, duration) && !AnyOverlap(TimeText(start), TimeText(start + duration), blocked)
  }

  /** The candidates from pass (hour, minute) on that satisfy `p`, in the order the
      loops visit them. */
  function GridFilter(p: nat -> bool, hour: nat, minute: nat): seq<nat>
    decreases EndHour - hour, 60 - minute
  {
    if hour >= EndHour then []
    else if minute >= 60 then GridFilter(p, hour + 1, 0)
    else (if p(hour * 60 + minute) then [hour * 60 + minute] else []) + GridFilter(p, hour, minute + 30)
  }

  /** The surviving starts among the candidates from pass (hour, minute) on. */
  function KeptFrom(rule: SkipRule, hour: nat, minute: nat, duration: nat, blocked: seq<Blocked>): seq<nat>
    decreases EndHour - hour, 60 - minute
  {
    if hour >= EndHour then []
    else if minute >= 60 then KeptFrom(rule, hour + 1, 0, duration, blocked)
    else KeptAt(rule, hour, minute, duration, blocked) + KeptFrom(rule, hour, minute + 30, duration, blocked)
  }

  /** Keep as a test on starts. */
  function KeepTest(rule: SkipRule, duration: nat, blocked: seq<Blocked>): nat -> bool
  {
    (start: nat) => Keep(rule, start, duration, blocked)
  }

  /** The surviving starts of the whole day. */
  function KeptStarts(rule: SkipRule, duration: nat, blocked: seq<Blocked>): seq<nat>
  {
    KeptFrom(rule, StartHour, 0, duration, blocked)
  }

  /** The slot offered for a start (lines 384-395, 407-411). */
  function CandidateSlot(start: nat, duration: nat): Slot
  {
    var end := start + duration;
    Slot(TimeText(start), TimeText(end),
         FormatTime(start / 60, start % 60) + " - " + FormatTime(end / 60, end % 60))
  }

  /** The slots of a list of starts, one each, in order. */
  function SlotsOf(starts: seq<nat>, duration: nat): (slots: seq<Slot>)
    ensures |slots| == |starts|
  {
    if starts == [] then [] else [CandidateSlot(starts[0], duration)] + SlotsOf(starts[1..], duration)
  }

  /** Slot i is the candidate slot of start i. */
  lemma {:induction false} SlotsOfIndex(starts: seq<nat>, duration: nat, i: nat)
    requires i < |starts|
    ensures SlotsOf(starts, duration)[i] == CandidateSlot(starts[i], duration)
  {
    if i > 0 {
      SlotsOfIndex(starts[1..], duration, i - 1);
    }
  }

  /** The checks of lines 384-404 on the candidate (hour, minute), in the loop's
      own terms. */
  predicate PassesChecks(hour: nat, minute: nat, duration: nat, blocked: seq<Blocked>)
  {
    var endMinutes := hour * 60 + minute + duration;
    var endHour := endMinutes / 60;
    var endMinute := endMinutes % 60;
    !(endHour >= endHour && endMinute > 0)
    && !AnyOverlap(Pad2(hour) + ":" + Pad2(minute), Pad2(endHour) + ":" + Pad2(endMinute), blocked)
  }

  /** The object pushed at lines 406-412 for the candidate (hour, minute). */
  function SlotAt(hour: nat, minute: nat, duration: nat): Slot
  {
    var endMinutes := hour * 60 + minute + duration;
    var endHour := endMinutes / 60;
    var endMinute := endMinutes % 60;
    Slot(Pad2(hour) + ":" + Pad2(minute), Pad2(endHour) + ":" + Pad2(endMinute),
         FormatTime(hour, minute) + " - " + FormatTime(endHour, endMinute))
  }

  /** The start pass (hour, minute) keeps, if any. */
  function KeptAt(rule: SkipRule, hour: nat, minute: nat, duration: nat, blocked: seq<Blocked>): seq<nat>
  {
    if Keep(rule, hour * 60 + minute, duration, blocked) then [hour * 60 + minute] else []
  }

  /** The slot list of lines 370-417: the candidate slots of the surviving starts,
      in the order the loops visit them. The outer loop is here, the inner loop in
      HourSlots, the inner loop's body in TryCandidate. */
  method GenerateTimeSlots(duration: nat, blocked: seq<Blocked>) returns (slots: seq<Slot>)
    ensures slots == SlotsOf(KeptStarts(AsWritten, duration, blocked), duration)
  {
    slots := [];
    var first := StartHour;
    DayStart(first, duration, blocked);
    for hour := first to EndHour
      invariant slots + SlotsOf(KeptFrom(AsWritten, hour, 0, duration, blocked), duration)
        == SlotsOf(KeptStarts(AsWritten, duration, blocked), duration)
    {
      ghost var before := slots;
      slots := HourSlots(hour, duration, blocked, slots);
      Rechain(before, slots, SlotsOf(KeptFrom(AsWritten, hour, 0, duration, blocked), duration),
              SlotsOf(KeptFrom(AsWritten, hour + 1, 0, duration, blocked), duration),
              SlotsOf(KeptStarts(AsWritten, duration, blocked), duration));
    }
    DayEnd(slots, duration, blocked);
  }

  /** The inner loop of lines 383-414 for one hour: minutes 0 and 30. */
  method HourSlots(hour: nat, duration: nat, blocked: seq<Blocked>, slots0: seq<Slot>) returns (slots: seq<Slot>)
    requires hour < EndHour
    ensures slots + SlotsOf(KeptFrom(AsWritten, hour + 1, 0, duration, blocked), duration)
      == slots0 + SlotsOf(KeptFrom(AsWritten, hour, 0, duration, blocked), duration)
  {
    slots := slots0;
    var minute := 0;
    while minute < 60
      invariant minute == 0 || minute == 30 || minute == 60
      invariant slots + SlotsOf(KeptFrom(AsWritten, hour, minute, duration, blocked), duration)
        == slots0 + SlotsOf(KeptFrom(AsWritten, hour, 0, duration, blocked), duration)
    {
      ghost var before := slots;
      slots := TryCandidate(hour, minute, duration, blocked, slots);
      KeptFromStep(AsWritten, hour, minute, duration, blocked);
      SlotsOfAppend(KeptAt(AsWritten, hour, minute, duration, blocked),
                    KeptFrom(AsWritten, hour, minute + 30, duration, blocked), duration);
      AppendAssoc(before, SlotsOf(KeptAt(AsWritten, hour, minute, duration, blocked), duration),
                  SlotsOf(KeptFrom(AsWritten, hour, minute + 30, duration, blocked), duration));
      minute := minute + 30;
    }
    KeptFromNextHour(AsWritten, hour, duration, blocked);
  }

  /** The body of the inner loop (lines 384-413): build the candidate's times, skip
      it by the end-time rule or an overlap, and push its slot otherwise. */
  method TryCandidate(hour: nat, minute: nat, duration: nat, blocked: seq<Blocked>, slots0: seq<Slot>)
    returns (slots: seq<Slot>)
    requires minute < 60
    ensures slots == slots0 + SlotsOf(KeptAt(AsWritten, hour, minute, duration, blocked), duration)
  {
    slots := slots0;
    var startTime := Pad2(hour) + ":" + Pad2(minute);
    var startMinutes := hour * 60 + minute;
    var endMinutes := startMinutes + duration;
    var endHour := endMinutes / 60;
    var endMinute := endMinutes % 60;
    if !(endHour >= endHour && endMinute > 0) {
      var endTime := Pad2(endHour) + ":" + Pad2(endMinute);
      var isOverlapping := AnyOverlap(startTime, endTime, blocked);
      if !isOverlapping {
        slots := slots + [Slot(startTime, endTime,
                               FormatTime(hour, minute) + " - " + FormatTime(endHour, endMinute))];
      }
    }
    PassKeeps(hour, minute, duration, blocked);
    if !PassesChecks(hour, minute, duration, blocked) {
      AppendNil(slots0);
    }
  }

  lemma KeptFromStep(rule: SkipRule, hour: nat, minute: nat, duration: nat, blocked: seq<Blocked>)
    requires hour < EndHour && minute < 60
    ensures KeptFrom(rule, hour, minute, duration, blocked)
      == KeptAt(rule, hour, minute, duration, blocked) + KeptFrom(rule, hour, minute + 30, duration, blocked)
  {
  }

  /** The loop-shaped KeptFrom is the grid filter by Keep, from the start of an
      hour on. */
  lemma {:induction false} KeptFromIsFilter(rule: SkipRule, hour: nat, duration: nat, blocked: seq<Blocked>)
    ensures KeptFrom(rule, hour, 0, duration, blocked) == GridFilter(KeepTest(rule, duration, blocked), hour, 0)
    decreases EndHour - hour
  {
    if hour >= EndHour {
      KeptFromIsFilterEnd(rule, hour, duration, blocked);
    } else {
      KeptFromIsFilter(rule, hour + 1, duration, blocked);
      KeptFromIsFilterHour(rule, hour, duration, blocked);
    }
  }

  lemma KeptFromIsFilterEnd(rule: SkipRule, hour: nat, duration: nat, blocked: seq<Blocked>)
    requires hour >= EndHour
    ensures KeptFrom(rule, hour, 0, duration, blocked) == GridFilter(KeepTest(rule, duration, blocked), hour, 0)
  {
  }

  /** One hour of the bridge: the passes at minute 0 and 30. */
  lemma KeptFromIsFilterHour(rule: SkipRule, hour: nat, duration: nat, blocked: seq<Blocked>)
    requires hour < EndHour
    requires KeptFrom(rule, hour + 1, 0, duration, blocked) == GridFilter(KeepTest(rule, duration, blocked), hour + 1, 0)
    ensures KeptFrom(rule, hour, 0, duration, blocked) == GridFilter(KeepTest(rule, duration, blocked), hour, 0)
  {
    var p := KeepTest(rule, duration, blocked);
    assert KeptFrom(rule, hour, 60, duration, blocked) == GridFilter(p, hour, 60);
    KeptFromIsFilterStep(rule, hour, 30, duration, blocked);
    KeptFromIsFilterStep(rule, hour, 0, duration, blocked);
  }

  lemma KeptFromIsFilterStep(rule: SkipRule, hour: nat, minute: nat, duration: nat, blocked: seq<Blocked>)
    requires hour < EndHour && minute < 60
    requires KeptFrom(rule, hour, minute + 30, duration, blocked)
      == GridFilter(KeepTest(rule, duration, blocked), hour, minute + 30)
    ensures KeptFrom(rule, hour, minute, duration, blocked) == GridFilter(KeepTest(rule, duration, blocked), hour, minute)
  {
    GridFilterStep(KeepTest(rule, duration, blocked), hour, minute);
    assert KeepTest(rule, duration, blocked)(hour * 60 + minute) == Keep(rule, hour * 60 + minute, duration, blocked);
  }

  lemma KeptFromEnd(rule: SkipRule, hour: nat, minute: nat, duration: nat, blocked: seq<Blocked>)
    requires hour >= EndHour
    ensures SlotsOf(KeptFrom(rule, hour, minute, duration, blocked), duration) == []
  {
    assert KeptFrom(rule, hour, minute, duration, blocked) == [];
  }

  lemma DayStart(first: nat, duration: nat, blocked: seq<Blocked>)
    requires first == StartHour
    ensures [] + SlotsOf(KeptFrom(AsWritten, first, 0, duration, blocked), duration)
      == SlotsOf(KeptStarts(AsWritten, duration, blocked), duration)
  {
    AppendNilLeft(SlotsOf(KeptStarts(AsWritten, duration, blocked), duration));
  }

  lemma DayEnd(slots: seq<Slot>, duration: nat, blocked: seq<Blocked>)
    requires slots + SlotsOf(KeptFrom(AsWritten, EndHour, 0, duration, blocked), duration)
      == SlotsOf(KeptStarts(AsWritten, duration, blocked), duration)
    ensures slots == SlotsOf(KeptStarts(AsWritten, duration, blocked), duration)
  {
    KeptFromEnd(AsWritten, EndHour, 0, duration, blocked);
    AppendNil(slots);
  }

  lemma KeptFromNextHour(rule: SkipRule, hour: nat, duration: nat, blocked: seq<Blocked>)
    requires hour < EndHour
    ensures KeptFrom(rule, hour, 60, duration, blocked) == KeptFrom(rule, hour + 1, 0, duration, blocked)
  {
  }

  lemma AppendNilLeft<T>(a: seq<T>)
    ensures [] + a == a
  {
  }

  lemma AppendNil<T>(a: seq<T>)
    ensures a + [] == a
  {
  }

  lemma AppendAssoc<T>(a: seq<T>, b: seq<T>, c: seq<T>)
    ensures a + (b + c) == a + b + c
  {
  }

  /** Slots of a concatenation are the concatenation of the slots. */
  lemma {:induction false} SlotsOfAppend(a: seq<nat>, b: seq<nat>, duration: nat)
    ensures SlotsOf(a + b, duration) == SlotsOf(a, duration) + SlotsOf(b, duration)
  {
    if a == [] {
      SlotsOfAppendNil(a, b, duration);
    } else {
      SlotsOfAppend(a[1..], b, duration);
      SlotsOfAppendStep(a, b, duration);
    }
  }

  lemma SlotsOfAppendNil(a: seq<nat>, b: seq<nat>, duration: nat)
    requires a == []
    ensures SlotsOf(a + b, duration) == SlotsOf(a, duration) + SlotsOf(b, duration)
  {
    assert a + b == b;
    AppendNilLeft(SlotsOf(b, duration));
  }

  lemma SlotsOfAppendStep(a: seq<nat>, b: seq<nat>, duration: nat)
    requires a != []
    requires SlotsOf(a[1..] + b, duration) == SlotsOf(a[1..], duration) + SlotsOf(b, duration)
    ensures SlotsOf(a + b, duration) == SlotsOf(a, duration) + SlotsOf(b, duration)
  {
    SlotsOfCons(a, duration);
    SlotsOfConsAppend(a, b, duration);
    ConsAppend([CandidateSlot(a[0], duration)], SlotsOf(a + b, duration), SlotsOf(a, duration), SlotsOf(b, duration),
               SlotsOf(a[1..] + b, duration), SlotsOf(a[1..], duration));
  }

  lemma SlotsOfCons(starts: seq<nat>, duration: nat)
    requires starts != []
    ensures SlotsOf(starts, duration) == [CandidateSlot(starts[0], duration)] + SlotsOf(starts[1..], duration)
  {
  }

  lemma SlotsOfConsAppend(a: seq<nat>, b: seq<nat>, duration: nat)
    requires a != []
    ensures SlotsOf(a + b, duration) == [CandidateSlot(a[0], duration)] + SlotsOf(a[1..] + b, duration)
  {
    assert (a + b)[0] == a[0] && (a + b)[1..] == a[1..] + b;
    SlotsOfCons(a + b, duration);
  }

  lemma Rechain<T>(s0: seq<T>, s1: seq<T>, r0: seq<T>, r1: seq<T>, total: seq<T>)
    requires s1 + r1 == s0 + r0 && s0 + r0 == total
    ensures s1 + r1 == total
  {
  }

  /** Concatenation step shared by the append lemmas, on any element type. */
  lemma ConsAppend<T>(h: seq<T>, ab: seq<T>, a: seq<T>, b: seq<T>, restAb: seq<T>, restA: seq<T>)
    requires ab == h + restAb && a == h + restA && restAb == restA + b
    ensures ab == a + b
  {
    AppendAssoc(h, restA, b);
  }

  /** At pass (hour, minute) the loop's checks are Keep under the rule as written,
      and the object it pushes is the candidate slot of hour * 60 + minute. */
  lemma PassAgreesWithKeep(hour: nat, minute: nat, duration: nat, blocked: seq<Blocked>)
    requires minute < 60
    ensures PassesChecks(hour, minute, duration, blocked) == Keep(AsWritten, hour * 60 + minute, duration, blocked)
    ensures SlotAt(hour, minute, duration) == CandidateSlot(hour * 60 + minute, duration)
  {
    var start := hour * 60 + minute;
    assert start / 60 == hour && start % 60 == minute;
  }

  /** The loop body's checks and slot, against the start it keeps: it pushes
      exactly the slots of KeptAt. */
  lemma PassKeeps(hour: nat, minute: nat, duration: nat, blocked: seq<Blocked>)
    requires minute < 60
    ensures PassesChecks(hour, minute, duration, blocked)
      ==> SlotsOf(KeptAt(AsWritten, hour, minute, duration, blocked), duration) == [SlotAt(hour, minute, duration)]
    ensures !PassesChecks(hour, minute, duration, blocked)
      ==> SlotsOf(KeptAt(AsWritten, hour, minute, duration, blocked), duration) == []
  {
    PassAgreesWithKeep(hour, minute, duration, blocked);
  }

  predicate StrictlyIncreasing(s: seq<nat>)
  {
    forall i, j :: 0 <= i < j < |s| ==> s[i] < s[j]
  }

  lemma GridFilterStep(p: nat -> bool, hour: nat, minute: nat)
    requires hour < EndHour && minute < 60
    ensures GridFilter(p, hour, minute)
      == (if p(hour * 60 + minute) then [hour * 60 + minute] else []) + GridFilter(p, hour, minute + 30)
  {
  }

  /** A smaller element in front of a strictly increasing sequence keeps it
      strictly increasing. */
  lemma IncreasingCons(x: nat, rest: seq<nat>)
    requires StrictlyIncreasing(rest)
    requires AtLeast(rest, x + 1)
    ensures StrictlyIncreasing([x] + rest)
  {
  }

  /** Pass (hour, minute) visits a candidate, and the next candidate after it is
      30 minutes later. */
  lemma GridStep(hour: nat, minute: nat, x: nat)
    requires StartHour <= hour < EndHour && (minute == 0 || minute == 30)
    ensures OnGrid(hour * 60 + minute)
    ensures x % 30 == 0 && hour * 60 + minute < x ==> hour * 60 + minute + 30 <= x
  {
    assert hour * 60 + minute == 30 * (2 * hour + minute / 30);
  }

  /** A start passes the filter from pass (hour, minute) on exactly when it is a
      candidate not before that pass and it satisfies `p`. */
  lemma {:induction false} GridFilterMember(p: nat -> bool, hour: nat, minute: nat, x: nat)
    requires StartHour <= hour && (minute == 0 || minute == 30 || minute == 60)
    ensures x in GridFilter(p, hour, minute) <==> hour * 60 + minute <= x && OnGrid(x) && p(x)
    decreases EndHour - hour, 60 - minute
  {
    if hour >= EndHour {
      GridFilterMemberEnd(p, hour, minute, x);
    } else if minute >= 60 {
      GridFilterMember(p, hour + 1, 0, x);
      GridFilterMemberNext(p, hour, x);
    } else {
      GridFilterMember(p, hour, minute + 30, x);
      GridFilterMemberStep(p, hour, minute, x);
    }
  }

  lemma GridFilterMemberEnd(p: nat -> bool, hour: nat, minute: nat, x: nat)
    requires hour >= EndHour
    ensures x in GridFilter(p, hour, minute) <==> hour * 60 + minute <= x && OnGrid(x) && p(x)
  {
  }

  lemma GridFilterMemberNext(p: nat -> bool, hour: nat, x: nat)
    requires hour < EndHour
    requires x in GridFilter(p, hour + 1, 0) <==> (hour + 1) * 60 <= x && OnGrid(x) && p(x)
    ensures x in GridFilter(p, hour, 60) <==> hour * 60 + 60 <= x && OnGrid(x) && p(x)
  {
  }

  /** One candidate of the induction of GridFilterMember. */
  lemma GridFilterMemberStep(p: nat -> bool, hour: nat, minute: nat, x: nat)
    requires StartHour <= hour < EndHour && (minute == 0 || minute == 30)
    requires x in GridFilter(p, hour, minute + 30) <==> hour * 60 + minute + 30 <= x && OnGrid(x) && p(x)
    ensures x in GridFilter(p, hour, minute) <==> hour * 60 + minute <= x && OnGrid(x) && p(x)
  {
    GridFilterStep(p, hour, minute);
    GridStep(hour, minute, x);
  }

  predicate AtLeast(s: seq<nat>, lo: nat)
  {
    forall i :: 0 <= i < |s| ==> lo <= s[i]
  }

  lemma AtLeastAppend(a: seq<nat>, b: seq<nat>, lo: nat)
    requires AtLeast(a, lo) && AtLeast(b, lo)
    ensures AtLeast(a + b, lo)
  {
  }

  /** Every filtered candidate from pass (hour, minute) on is at or after it. */
  lemma {:induction false} GridFilterAbove(p: nat -> bool, hour: nat, minute: nat)
    requires minute == 0 || minute == 30 || minute == 60
    ensures AtLeast(GridFilter(p, hour, minute), hour * 60 + minute)
    decreases EndHour - hour, 60 - minute
  {
    if hour >= EndHour {
    } else if minute >= 60 {
      GridFilterAbove(p, hour + 1, 0);
    } else {
      GridFilterAbove(p, hour, minute + 30);
      GridFilterStep(p, hour, minute);
      AtLeastAppend(if p(hour * 60 + minute) then [hour * 60 + minute] else [],
                    GridFilter(p, hour, minute + 30), hour * 60 + minute);
    }
  }

  /** The filtered candidates are strictly increasing. */
  lemma {:induction false} GridFilterIncreasing(p: nat -> bool, hour: nat, minute: nat)
    requires minute == 0 || minute == 30 || minute == 60
    ensures StrictlyIncreasing(GridFilter(p, hour, minute))
    decreases EndHour - hour, 60 - minute
  {
    if hour >= EndHour {
    } else if minute >= 60 {
      GridFilterIncreasing(p, hour + 1, 0);
    } else {
      GridFilterIncreasing(p, hour, minute + 30);
      GridFilterAbove(p, hour, minute + 30);
      GridFilterStep(p, hour, minute);
      if p(hour * 60 + minute) {
        IncreasingCons(hour * 60 + minute, GridFilter(p, hour, minute + 30));
      } else {
        AppendNilLeft(GridFilter(p, hour, minute + 30));
      }
    }
  }

  /** A start survives the whole day exactly when it is a candidate that passes the
      rule and the overlap test. */
  lemma KeptStartsMembers(rule: SkipRule, duration: nat, blocked: seq<Blocked>)
    ensures forall x :: x in KeptStarts(rule, duration, blocked) <==> OnGrid(x) && Keep(rule, x, duration, blocked)
    ensures StrictlyIncreasing(KeptStarts(rule, duration, blocked))
  {
    KeptFromIsFilter(rule, StartHour, duration, blocked);
    forall x: nat
      ensures x in KeptStarts(rule, duration, blocked) <==> OnGrid(x) && Keep(rule, x, duration, blocked)
    {
      GridFilterMember(KeepTest(rule, duration, blocked), StartHour, 0, x);
    }
    GridFilterIncreasing(KeepTest(rule, duration, blocked), StartHour, 0);
  }

  /** A candidate that passes the rule and the overlap test is kept. */
  lemma KeepIsKept(rule: SkipRule, x: nat, duration: nat, blocked: seq<Blocked>)
    requires OnGrid(x) && Keep(rule, x, duration, blocked)
    ensures x in KeptStarts(rule, duration, blocked)
  {
    KeptStartsMembers(rule, duration, blocked);
  }

  /** A kept start is a candidate that passes the rule and the overlap test. */
  lemma KeptIsKeep(rule: SkipRule, x: nat, duration: nat, blocked: seq<Blocked>)
    requires x in KeptStarts(rule, duration, blocked)
    ensures OnGrid(x) && Keep(rule, x, duration, blocked)
  {
    KeptStartsMembers(rule, duration, blocked);
  }

  /** A 30-minute slot that ends on the hour starts at half past. */
  lemma EndsOnHourHalfPast(x: nat)
    requires (x + 30) % 60 == 0
    ensures x % 60 == 30
  {
  }

  /** The last candidate is 16:30. */
  lemma LastCandidate(x: nat)
    requires OnGrid(x)
    ensures x <= 16 * 60 + 30
  {
  }

  /** Under the rule as written, a start is kept exactly when its end falls on the
      hour and it clashes with no blocked range. */
  lemma KeepAsWritten(x: nat, duration: nat, blocked: seq<Blocked>)
    ensures Keep(AsWritten, x, duration, blocked)
      <==> (x + duration) % 60 == 0 && !AnyOverlap(TimeText(x), TimeText(x + duration), blocked)
  {
  }

  /** Under the close-of-business rule, a start is kept exactly when it ends by
      17:00 and clashes with no blocked range. */
  lemma KeepIntended(x: nat, duration: nat, blocked: seq<Blocked>)
    ensures Keep(Intended, x, duration, blocked)
      <==> x + duration <= EndHour * 60 && !AnyOverlap(TimeText(x), TimeText(x + duration), blocked)
  {
  }

  /** Whatever the rule, a kept start clashes with no blocked range. */
  lemma KeepIsFree(rule: SkipRule, x: nat, duration: nat, blocked: seq<Blocked>)
    requires Keep(rule, x, duration, blocked)
    ensures forall i :: 0 <= i < |blocked| ==> !OverlapsBlocked(TimeText(x), TimeText(x + duration), blocked[i])
  {
  }

  /** Offered slot i is the slot of the i-th kept start, a candidate. */
  lemma OfferedSlotAt(duration: nat, blocked: seq<Blocked>, i: nat)
    requires i < |KeptStarts(AsWritten, duration, blocked)|
    ensures OnGrid(KeptStarts(AsWritten, duration, blocked)[i])
    ensures SlotsOf(KeptStarts(AsWritten, duration, blocked), duration)[i]
      == CandidateSlot(KeptStarts(AsWritten, duration, blocked)[i], duration)
  {
    var ks := KeptStarts(AsWritten, duration, blocked);
    assert ks[i] in ks;
    KeptIsKeep(AsWritten, ks[i], duration, blocked);
    SlotsOfIndex(ks, duration, i);
  }

  /** A slot that starts at a candidate and lasts `duration` minutes. */
  ghost predicate IsCandidateSlot(slot: Slot, duration: nat)
  {
    exists s: nat :: OnGrid(s) && slot.start == TimeText(s) && slot.end == TimeText(s + duration)
  }

  lemma CandidateSlotShape(x: nat, duration: nat)
    requires OnGrid(x)
    ensures IsCandidateSlot(CandidateSlot(x, duration), duration)
  {
    assert CandidateSlot(x, duration).start == TimeText(x);
  }

  /** Every offered slot starts at a candidate and ends `duration` minutes later. */
  lemma SlotsAreCandidates(duration: nat, blocked: seq<Blocked>)
    ensures var slots := SlotsOf(KeptStarts(AsWritten, duration, blocked), duration);
      forall i :: 0 <= i < |slots| ==> IsCandidateSlot(slots[i], duration)
  {
    var slots := SlotsOf(KeptStarts(AsWritten, duration, blocked), duration);
    forall i | 0 <= i < |slots|
      ensures IsCandidateSlot(slots[i], duration)
    {
      OfferedSlotAt(duration, blocked, i);
      CandidateSlotShape(KeptStarts(AsWritten, duration, blocked)[i], duration);
    }
  }

  /** The offered slots are in strictly ascending order of start time. */
  lemma SlotsAscending(duration: nat, blocked: seq<Blocked>)
    ensures var slots := SlotsOf(KeptStarts(AsWritten, duration, blocked), duration);
      forall i, j :: 0 <= i < j < |slots| ==> TextLess(slots[i].start, slots[j].start)
  {
    var slots := SlotsOf(KeptStarts(AsWritten, duration, blocked), duration);
    forall i, j | 0 <= i < j < |slots|
      ensures TextLess(slots[i].start, slots[j].start)
    {
      OfferedSlotsOrdered(duration, blocked, i, j);
    }
  }

  /** An earlier offered slot starts at an earlier "HH:MM" text. */
  lemma OfferedSlotsOrdered(duration: nat, blocked: seq<Blocked>, i: nat, j: nat)
    requires i < j < |KeptStarts(AsWritten, duration, blocked)|
    ensures var slots := SlotsOf(KeptStarts(AsWritten, duration, blocked), duration);
      TextLess(slots[i].start, slots[j].start)
  {
    var ks := KeptStarts(AsWritten, duration, blocked);
    OfferedSlotAt(duration, blocked, i);
    OfferedSlotAt(duration, blocked, j);
    KeptStartsMembers(AsWritten, duration, blocked);
    TimeTextOrder(ks[i], ks[j]);
  }

  /** As written, a candidate passes the end-time check exactly when its end falls
      on the hour; nothing compares the end with 17:00. */
  lemma SurvivesHourCheckIff(start: nat, duration: nat)
    ensures !SkipAsWritten(start, duration) <==> (start + duration) % 60 == 0
  {
  }

  /** As written, a service whose duration is not a multiple of 30 minutes (45
      minutes, say) is offered no slot at all. */
  lemma OffGridDurationHasNoSlots(duration: nat, blocked: seq<Blocked>)
    requires duration % 30 != 0
    ensures KeptStarts(AsWritten, duration, blocked) == []
  {
    var ks := KeptStarts(AsWritten, duration, blocked);
    KeptStartsMembers(AsWritten, duration, blocked);
    if ks != [] {
      assert ks[0] in ks;
      OffGridEndsOffTheHour(ks[0], duration);
    }
  }

  /** From a half-hour start, a duration that is not a multiple of 30 minutes never
      ends on the hour. */
  lemma OffGridEndsOffTheHour(start: nat, duration: nat)
    requires start % 30 == 0 && duration % 30 != 0
    ensures SkipAsWritten(start, duration)
  {
    var q, p, r := start / 30, duration / 30, duration % 30;
    assert start == 30 * q && duration == 30 * p + r && 0 < r < 30;
    assert start + duration == 30 * (q + p) + r;
  }

  /** As written, a 30-minute service is offered only at half past the hour. */
  lemma HalfHourServiceOnlyAtHalfPast(blocked: seq<Blocked>)
    ensures forall x: nat :: x in KeptStarts(AsWritten, 30, blocked) ==> x % 60 == 30
  {
    forall x: nat | x in KeptStarts(AsWritten, 30, blocked)
      ensures x % 60 == 30
    {
      KeptIsKeep(AsWritten, x, 30, blocked);
      KeepAsWritten(x, 30, blocked);
      EndsOnHourHalfPast(x);
    }
  }

  /** As written, a 120-minute service starting at 16:00 is offered as
      16:00-18:00, an hour past closing, whenever that range is free. */
  lemma NoClosingCheckAsWritten(blocked: seq<Blocked>)
    requires !AnyOverlap(TimeText(16 * 60), TimeText(18 * 60), blocked)
    ensures 16 * 60 in KeptStarts(AsWritten, 120, blocked)
    ensures 16 * 60 + 120 > EndHour * 60
  {
    KeepAsWritten(16 * 60, 120, blocked);
    KeepIsKept(AsWritten, 16 * 60, 120, blocked);
  }

  /** Under the close-of-business rule every offered slot ends by 17:00, and every
      free candidate that ends by 17:00 is offered. */
  lemma IntendedSlotsWithinHours(duration: nat, blocked: seq<Blocked>)
    ensures forall x: nat :: x in KeptStarts(Intended, duration, blocked) <==>
      OnGrid(x) && x + duration <= EndHour * 60 &&
      !AnyOverlap(TimeText(x), TimeText(x + duration), blocked)
  {
    KeptStartsMembers(Intended, duration, blocked);
    forall x: nat
      ensures x in KeptStarts(Intended, duration, blocked) <==>
        OnGrid(x) && x + duration <= EndHour * 60 && !AnyOverlap(TimeText(x), TimeText(x + duration), blocked)
    {
      KeepIntended(x, duration, blocked);
    }
  }

  /** No offered start clashes with a blocked range under the source's test. */
  lemma KeptStartsAvoidBlocked(rule: SkipRule, duration: nat, blocked: seq<Blocked>)
    ensures forall x: nat, i :: x in KeptStarts(rule, duration, blocked) && 0 <= i < |blocked| ==>
      !OverlapsBlocked(TimeText(x), TimeText(x + duration), blocked[i])
  {
    forall x: nat, i | x in KeptStarts(rule, duration, blocked) && 0 <= i < |blocked|
      ensures !OverlapsBlocked(TimeText(x), TimeText(x + duration), blocked[i])
    {
      KeptIsKeep(rule, x, duration, blocked);
      KeepIsFree(rule, x, duration, blocked);
    }
  }

  /** For ranges of positive length below 100:00, the three-clause test on the texts
      is the half-open overlap of the minute ranges: [s, e) and [bs, be) share an
      instant. */
  lemma OverlapIsHalfOpen(s: nat, e: nat, bs: nat, be: nat)
    requires s < e < 6000 && bs < be < 6000
    ensures OverlapsBlocked(TimeText(s), TimeText(e), Blocked(TimeText(bs), TimeText(be)))
            <==> (s < be && bs < e)
  {
    TimeTextOrder(s, bs); TimeTextOrder(bs, s);
    TimeTextOrder(s, be); TimeTextOrder(be, s);
    TimeTextOrder(e, bs); TimeTextOrder(bs, e);
    TimeTextOrder(e, be); TimeTextOrder(be, e);
  }

  /** Back-to-back ranges do not clash, and the test does not depend on which of
      the two ranges is the candidate. */
  lemma BackToBackAndSymmetry(s: nat, e: nat, bs: nat, be: nat)
    requires s < e < 6000 && bs < be < 6000
    ensures e == bs ==> !OverlapsBlocked(TimeText(s), TimeText(e), Blocked(TimeText(bs), TimeText(be)))
    ensures s == be ==> !OverlapsBlocked(TimeText(s), TimeText(e), Blocked(TimeText(bs), TimeText(be)))
    ensures OverlapsBlocked(TimeText(s), TimeText(e), Blocked(TimeText(bs), TimeText(be)))
        <==> OverlapsBlocked(TimeText(bs), TimeText(be), Blocked(TimeText(s), TimeText(e)))
  {
    OverlapIsHalfOpen(s, e, bs, be);
    OverlapIsHalfOpen(bs, be, s, e);
  }

  /** A blocked range as a booking made from an offered slot stores it. */
  predicate WellFormed(b: Blocked)
  {
    exists bs: nat, be: nat :: bs < be < 6000 && b == Blocked(TimeText(bs), TimeText(be))
  }

  /** With positive duration and well-formed blocked ranges, no offered slot shares
      an instant with any blocked range. */
  lemma OfferedSlotsAreFree(rule: SkipRule, duration: nat, blocked: seq<Blocked>)
    requires 0 < duration < 6000 - 16 * 60 - 30
    requires forall i :: 0 <= i < |blocked| ==> WellFormed(blocked[i])
    ensures forall x: nat, i, bs: nat, be: nat ::
      x in KeptStarts(rule, duration, blocked) && 0 <= i < |blocked| &&
      bs < be < 6000 && blocked[i] == Blocked(TimeText(bs), TimeText(be))
      ==> !(x < be && bs < x + duration)
  {
    forall x: nat, i, bs: nat, be: nat |
      x in KeptStarts(rule, duration, blocked) && 0 <= i < |blocked| &&
      bs < be < 6000 && blocked[i] == Blocked(TimeText(bs), TimeText(be))
      ensures !(x < be && bs < x + duration)
    {
      KeptIsKeep(rule, x, duration, blocked);
      KeepIsFree(rule, x, duration, blocked);
      LastCandidate(x);
      OverlapIsHalfOpen(x, x + duration, bs, be);
    }
  }

  /** Against a single blocked range, the overlap test is the half-open overlap
      of the minute ranges. */
  lemma SingleBlockedOverlap(x: nat, duration: nat, bs: nat, be: nat, blocked: seq<Blocked>)
    requires 0 < duration && x + duration < 6000 && bs < be < 6000
    requires blocked == [Blocked(TimeText(bs), TimeText(be))]
    ensures AnyOverlap(TimeText(x), TimeText(x + duration), blocked) <==> x < be && bs < x + duration
  {
    OverlapIsHalfOpen(x, x + duration, bs, be);
    assert blocked[0] == Blocked(TimeText(bs), TimeText(be));
  }

  /** With one blocked range, a candidate survives the rule as written exactly when
      it ends on the hour and does not overlap the range. */
  lemma KeptAsWrittenSingle(x: nat, duration: nat, bs: nat, be: nat, blocked: seq<Blocked>)
    requires OnGrid(x) && 0 < duration && x + duration < 6000 && bs < be < 6000
    requires blocked == [Blocked(TimeText(bs), TimeText(be))]
    ensures x in KeptStarts(AsWritten, duration, blocked)
      <==> OnTheHour(x + duration) && !(x < be && bs < x + duration)
  {
    KeptIff(AsWritten, x, duration, blocked);
    KeepAsWritten(x, duration, blocked);
    SingleBlockedOverlap(x, duration, bs, be, blocked);
  }

  /** The same under the close-of-business rule. */
  lemma KeptIntendedSingle(x: nat, duration: nat, bs: nat, be: nat, blocked: seq<Blocked>)
    requires OnGrid(x) && 0 < duration && x + duration < 6000 && bs < be < 6000
    requires blocked == [Blocked(TimeText(bs), TimeText(be))]
    ensures x in KeptStarts(Intended, duration, blocked)
      <==> x + duration <= EndHour * 60 && !(x < be && bs < x + duration)
  {
    KeptIff(Intended, x, duration, blocked);
    KeepIntended(x, duration, blocked);
    SingleBlockedOverlap(x, duration, bs, be, blocked);
  }

  /** A candidate is kept exactly when it passes the rule and the overlap test. */
  lemma KeptIff(rule: SkipRule, x: nat, duration: nat, blocked: seq<Blocked>)
    requires OnGrid(x)
    ensures x in KeptStarts(rule, duration, blocked) <==> Keep(rule, x, duration, blocked)
  {
    KeptStartsMembers(rule, duration, blocked);
  }

  /** A minute count that falls on the hour. */
  predicate OnTheHour(m: nat)
  {
    m % 60 == 0
  }

  lemma HalfHourEnds()
    ensures !OnTheHour(570) && OnTheHour(600) && !OnTheHour(630) && OnTheHour(660)
  {
  }

  /** The 30-minute example with a booking 10:00-10:30, as written: 09:30 and 10:30
      are offered, 09:00 and 10:00 are not. */
  lemma ThirtyMinuteAsWritten(bs: nat, be: nat, blocked: seq<Blocked>)
    requires bs == 600 && be == 630 && blocked == [Blocked(TimeText(bs), TimeText(be))]
    ensures var offered := KeptStarts(AsWritten, 30, blocked);
      570 in offered && 630 in offered && 540 !in offered && 600 !in offered
  {
    HalfHourEnds();
    KeptAsWrittenSingle(540, 30, bs, be, blocked);
    KeptAsWrittenSingle(570, 30, bs, be, blocked);
    KeptAsWrittenSingle(600, 30, bs, be, blocked);
    KeptAsWrittenSingle(630, 30, bs, be, blocked);
  }

  /** The same example under the close-of-business rule: 09:00 is offered too. */
  lemma ThirtyMinuteIntended(bs: nat, be: nat, blocked: seq<Blocked>)
    requires bs == 600 && be == 630 && blocked == [Blocked(TimeText(bs), TimeText(be))]
    ensures var offered := KeptStarts(Intended, 30, blocked);
      540 in offered && 570 in offered && 630 in offered && 600 !in offered
  {
    KeptIntendedSingle(540, 30, bs, be, blocked);
    KeptIntendedSingle(570, 30, bs, be, blocked);
    KeptIntendedSingle(600, 30, bs, be, blocked);
    KeptIntendedSingle(630, 30, bs, be, blocked);
  }
}
