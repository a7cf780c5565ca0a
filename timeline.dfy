/** Timeline geometry shared, in identical code, by the dashboard activity section
    (src/components/dashboard/ActivitySection.tsx) and the Gantt chart
    (src/components/GanttChart.tsx): the year markers and the today marker, as percentages
    of the project's duration. */
module Timeline {
  import opened Numeric
  import opened Dates

  /** A year marker: the year and its position as a percentage of the timeline. */
  datatype Marker = Marker(year: int, position: real)

  /** How far January 1 of `year` lies into the project, floored at 0 but not capped. */
  function MarkerPosition(start: Date, end: Date, year: int): (p: real)
    requires ValidDate(start) && ValidDate(end) && DayNumber(end) != DayNumber(start)
    ensures p >= 0.0
  {
    var totalDays := (DayNumber(end) - DayNumber(start)) as real;
    var daysFromStart := (DayNumber(NewYear(year)) - DayNumber(start)) as real;
    Max(0.0, (daysFromStart / totalDays) * 100.0)
  }

  /** `MarkerPosition` for a fixed project, as one function of the year (0 for a project
      whose dates could not be divided, which no caller passes). */
  function PositionOf(start: Date, end: Date): (pos: int -> real)
    ensures forall y :: pos(y) >= 0.0
    ensures ValidDate(start) && ValidDate(end) && DayNumber(end) != DayNumber(start) ==>
              forall y :: pos(y) == MarkerPosition(start, end, y)
  {
    (y: int) => if ValidDate(start) && ValidDate(end) && DayNumber(end) != DayNumber(start)
                then MarkerPosition(start, end, y) else 0.0
  }

  /** The markers of the years `year` to `last`, leaving out any beyond 100%. */
  function MarkersFrom(pos: int -> real, year: int, last: int): seq<Marker>
    decreases last - year
  {
    if year > last then []
    else
      var rest := MarkersFrom(pos, year + 1, last);
      if pos(year) <= 100.0 then [Marker(year, pos(year))] + rest else rest
  }

  /** The markers of a project: its start year to its end year. */
  function YearMarkers(start: Date, end: Date): seq<Marker>
  {
    MarkersFrom(PositionOf(start, end), start.year, end.year)
  }

  /** Every marker is a year of the range at its own position, at most 100, and the years
      increase. */
  lemma {:induction false} MarkersMeaning(pos: int -> real, year: int, last: int)
    ensures MarkersWithin(MarkersFrom(pos, year, last), pos, year, last)
    decreases last - year
  {
    if year <= last {
      MarkersMeaning(pos, year + 1, last);
      var rest := MarkersFrom(pos, year + 1, last);
      var r := MarkersFrom(pos, year, last);
      if pos(year) <= 100.0 {
        assert r == [Marker(year, pos(year))] + rest;
        assert forall i :: 0 < i < |r| ==> r[i] == rest[i - 1];
      } else {
        assert r == rest;
      }
    }
  }

  /** Markers of years `year` to `last`, in increasing order, each at its own position and at
      most 100. */
  predicate MarkersWithin(r: seq<Marker>, pos: int -> real, year: int, last: int)
  {
    (forall i :: 0 <= i < |r| ==> year <= r[i].year <= last) &&
    (forall i :: 0 <= i < |r| ==> r[i].position == pos(r[i].year) && r[i].position <= 100.0) &&
    (forall i, j :: 0 <= i < j < |r| ==> r[i].year < r[j].year)
  }

  /** A year whose position is within 100 is marked, and one beyond is not. */
  lemma {:induction false} MarkedIffWithinHundred(pos: int -> real, year: int, last: int, y: int)
    requires year <= y <= last
    ensures Marker(y, pos(y)) in MarkersFrom(pos, year, last) <==> pos(y) <= 100.0
    ensures pos(y) > 100.0 ==> forall m :: m in MarkersFrom(pos, year, last) ==> m.year != y
    decreases last - year
  {
    var r := MarkersFrom(pos, year, last);
    var rest := MarkersFrom(pos, year + 1, last);
    MarkersMeaning(pos, year + 1, last);
    assert forall m :: m in rest ==> year + 1 <= m.year;
    if y > year {
      MarkedIffWithinHundred(pos, year + 1, last, y);
    }
  }

  /** Every marker of a proper project lies in [0, 100]: the position is floored at 0. */
  lemma MarkerPositionsInRange(start: Date, end: Date)
    requires ValidDate(start) && ValidDate(end) && DayNumber(end) != DayNumber(start)
    ensures forall i :: 0 <= i < |YearMarkers(start, end)| ==>
              0.0 <= YearMarkers(start, end)[i].position <= 100.0 &&
              YearMarkers(start, end)[i].position == MarkerPosition(start, end, YearMarkers(start, end)[i].year)
  {
    var pos := PositionOf(start, end);
    MarkersMeaning(pos, start.year, end.year);
  }

  /** `generateYearMarkers`: a `while` loop over the calendar years of the project that pushes
      `{ year, position }` when the position is at most 100. */
  method GenerateYearMarkers(start: Date, end: Date) returns (markers: seq<Marker>)
    requires ValidDate(start) && ValidDate(end) && DayNumber(end) != DayNumber(start)
    ensures markers == YearMarkers(start, end)
  {
    markers := MarkerLoop(PositionOf(start, end), start.year, end.year);
  }

  /** The loop of `generateYearMarkers`, for the position function of its project. */
  method MarkerLoop(pos: int -> real, first: int, last: int) returns (markers: seq<Marker>)
    ensures markers == MarkersFrom(pos, first, last)
  {
    markers := [];
    var currentYear := first;
    while currentYear <= last
      invariant markers + MarkersFrom(pos, currentYear, last) == MarkersFrom(pos, first, last)
      decreases last - currentYear
    {
      var position := pos(currentYear);
      ghost var before := markers;
      if position <= 100.0 {
        markers := markers + [Marker(currentYear, position)];
      }
      assert markers == before + (if position <= 100.0 then [Marker(currentYear, position)] else []);
      currentYear := currentYear + 1;
    }
  }

  lemma RatioAtMostOne(a: real, b: real)
    requires 0.0 < b && a <= b
    ensures (a / b) * 100.0 <= 100.0
  {
    assert a / b <= 1.0;
  }

  /** In a project whose end follows its start, no year up to the end year lies beyond 100%. */
  lemma YearsWithinHundred(start: Date, end: Date, y: int)
    requires ValidDate(start) && ValidDate(end) && DayNumber(end) > DayNumber(start)
    requires y <= end.year
    ensures PositionOf(start, end)(y) <= 100.0
  {
    NewYearOrder(y, end);
    RatioAtMostOne((DayNumber(NewYear(y)) - DayNumber(start)) as real, (DayNumber(end) - DayNumber(start)) as real);
  }

  /** When no year of the range lies beyond 100%, there is one marker per year, in order. */
  lemma {:induction false} EveryYearMarked(pos: int -> real, year: int, last: int)
    requires year <= last + 1
    requires forall y :: year <= y <= last ==> pos(y) <= 100.0
    ensures |MarkersFrom(pos, year, last)| == last - year + 1
    ensures forall i :: 0 <= i < |MarkersFrom(pos, year, last)| ==> MarkersFrom(pos, year, last)[i].year == year + i
    decreases last - year
  {
    if year <= last {
      EveryYearMarked(pos, year + 1, last);
    }
  }

  /** The whole project's markers: consecutive years from the start year to the end year. */
  lemma ProjectMarkers(start: Date, end: Date)
    requires ValidDate(start) && ValidDate(end) && DayNumber(end) > DayNumber(start)
    ensures var r := YearMarkers(start, end);
            |r| == end.year - start.year + 1 && forall i :: 0 <= i < |r| ==> r[i].year == start.year + i
  {
    assert start.year <= end.year by {
      if end.year < start.year {
        YearOrder(end, start);
        assert false;
      }
    }
    forall y | start.year <= y <= end.year
      ensures PositionOf(start, end)(y) <= 100.0
    {
      YearsWithinHundred(start, end, y);
    }
    EveryYearMarked(PositionOf(start, end), start.year, end.year);
  }

  /** The start year's marker sits at 0: its January 1 is never after the project's start. */
  lemma StartYearFloored(start: Date, end: Date)
    requires ValidDate(start) && ValidDate(end) && DayNumber(end) > DayNumber(start)
    ensures MarkerPosition(start, end, start.year) == 0.0
  {
    NewYearOrder(start.year, start);
    var a := (DayNumber(NewYear(start.year)) - DayNumber(start)) as real;
    var b := (DayNumber(end) - DayNumber(start)) as real;
    assert a <= 0.0 && b > 0.0;
    assert a / b <= 0.0;
  }

  /** A marker beyond 100% is skipped, not clamped: with the dates reversed, January 1 of the
      only year lies at 36500% and no marker is emitted. */
  lemma BeyondHundredSkipped()
    ensures MarkerPosition(Date(2024, 12, 31), Date(2024, 12, 30), 2024) == 36500.0
    ensures YearMarkers(Date(2024, 12, 31), Date(2024, 12, 30)) == []
  {
    assert DayNumber(NewYear(2024)) - DayNumber(Date(2024, 12, 31)) == -365;
    assert DayNumber(Date(2024, 12, 30)) - DayNumber(Date(2024, 12, 31)) == -1;
    assert PositionOf(Date(2024, 12, 31), Date(2024, 12, 30))(2024) == 36500.0;
    assert MarkersFrom(PositionOf(Date(2024, 12, 31), Date(2024, 12, 30)), 2025, 2024) == [];
  }

  /** `getTodayPosition`: where `today` lies in the project, clamped to [0, 100]. */
  function TodayPosition(projectStart: int, projectEnd: int, today: int): (p: real)
    requires projectEnd != projectStart
    ensures 0.0 <= p <= 100.0
    ensures var raw := ((today - projectStart) as real / (projectEnd - projectStart) as real) * 100.0;
            (0.0 <= raw <= 100.0 ==> p == raw) && (raw < 0.0 ==> p == 0.0) && (raw > 100.0 ==> p == 100.0)
  {
    var position := ((today - projectStart) as real / (projectEnd - projectStart) as real) * 100.0;
    Max(0.0, Min(100.0, position))
  }

  /** At the project's start the today marker is at 0, at its end at 100. */
  lemma TodayAtEnds(projectStart: int, projectEnd: int)
    requires projectEnd > projectStart
    ensures TodayPosition(projectStart, projectEnd, projectStart) == 0.0
    ensures TodayPosition(projectStart, projectEnd, projectEnd) == 100.0
  {
  }

  /** A timeline bar: left edge and width, as percentages of the project's duration. */
  datatype Bar = Bar(left: real, width: real)

  /** `((actStart - projStart) / totalDuration) * 100`, before any clamping. */
  function RawLeft(plannedStart: int, projectStart: int, projectEnd: int): real
    requires projectEnd != projectStart
  {
    ((plannedStart - projectStart) as real / (projectEnd - projectStart) as real) * 100.0
  }

  /** `((actEnd - actStart) / totalDuration) * 100`, before any clamping. */
  function RawWidth(plannedStart: int, plannedEnd: int, projectStart: int, projectEnd: int): real
    requires projectEnd != projectStart
  {
    ((plannedEnd - plannedStart) as real / (projectEnd - projectStart) as real) * 100.0
  }
}
