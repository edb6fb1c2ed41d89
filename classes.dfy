/** `/api/classes`: the class-template schema, the listing ordered by name,
    and creation of a validated template. */
module ClassesRoute {
  import opened Common
  import opened Schema
  import opened Store

  /** The request body after JSON parsing: each field may be absent; numbers are
      JSON numbers. */
  datatype RecurrenceInput = RecurrenceInput(pattern: Option<string>, daysOfWeek: Option<seq<real>>, timezone: Option<string>)

  datatype ClassInput = ClassInput(
    name: Option<string>, description: Option<string>, instructorName: Option<string>,
    durationMinutes: Option<real>, maxCapacity: Option<real>, priceCredits: Option<real>,
    recurrencePattern: Option<RecurrenceInput>, startTime: Option<string>, endTime: Option<string>,
    timezone: Option<string>, isActive: Option<bool>)

  predicate IsInteger(x: real) {
    x == x.Floor as real
  }

  /** `z.number().int().positive()` on a present field. */
  predicate PositiveInteger(x: Option<real>) {
    x.Some? && IsInteger(x.value) && x.value > 0.0
  }

  predicate NonEmpty(s: Option<string>) {
    s.Some? && |s.value| >= 1
  }

  /** `z.string().regex(/^([0-1]?[0-9]|2[0-3]):[0-5][0-9]$/)`. */
  predicate ClockField(s: Option<string>) {
    s.Some? && ClockPattern(s.value)
  }

  /** `app/api/classes/route.ts` lines 12-16: the pattern is "weekly" or "daily"; the weekday
      list, when present, holds integers from 0 to 6; the time zone is a string. */
  predicate RecurrenceOk(r: Option<RecurrenceInput>) {
    && r.Some?
    && r.value.pattern.Some? && (r.value.pattern.value == "weekly" || r.value.pattern.value == "daily")
    && (r.value.daysOfWeek.Some? ==> forall i :: 0 <= i < |r.value.daysOfWeek.value| ==>
          IsInteger(r.value.daysOfWeek.value[i]) && 0.0 <= r.value.daysOfWeek.value[i] <= 6.0)
    && r.value.timezone.Some?
  }

  /** `app/api/classes/route.ts` lines 5-21: every rule of `classSchema`. */
  predicate Accepts(input: ClassInput) {
    && NonEmpty(input.name) && NonEmpty(input.instructorName)
    && PositiveInteger(input.durationMinutes) && PositiveInteger(input.maxCapacity)
    && (input.priceCredits.Some? ==> PositiveInteger(input.priceCredits))
    && RecurrenceOk(input.recurrencePattern)
    && ClockField(input.startTime) && ClockField(input.endTime)
    && input.timezone.Some?
  }

  function Days(d: seq<real>): (r: seq<int>)
    ensures |r| == |d| && forall i :: 0 <= i < |d| ==> r[i] == d[i].Floor
  {
    seq(|d|, i requires 0 <= i < |d| => d[i].Floor)
  }

  /** `classSchema.parse(body)`, and the row `prisma.class.create` builds from it
      (priceCredits defaults to 1, isActive to true). Rejection is 400 "Invalid input". */
  function ValidateClass(input: ClassInput, id: nat): (r: Result<ClassDef>)
    ensures r.Err? <==> !Accepts(input)
    ensures r.Err? ==> r.error == ApiError(400, "Invalid input")
    ensures r.Ok? ==> SchemaValid(r.value) && r.value.id == id
  {
    if !Accepts(input) then Err(ApiError(400, "Invalid input"))
    else
      var rec := input.recurrencePattern.value;
      var c := ClassDef(
        id, input.name.value, input.description, input.instructorName.value,
        input.durationMinutes.value.Floor, input.maxCapacity.value.Floor,
        match input.priceCredits case None => 1 case Some(p) => p.Floor,
        Recurrence(rec.pattern.value, match rec.daysOfWeek case None => None case Some(d) => Some(Days(d)), rec.timezone.value),
        input.startTime.value, input.endTime.value, input.timezone.value,
        match input.isActive case None => true case Some(b) => b);
      Ok(c)
  }

  /** The body that describes an existing template field for field. */
  function InputOf(c: ClassDef): (input: ClassInput)
    ensures input.name == Some(c.name) && input.startTime == Some(c.startTime)
  {
    ClassInput(
      Some(c.name), c.description, Some(c.instructorName),
      Some(c.durationMinutes as real), Some(c.maxCapacity as real), Some(c.priceCredits as real),
      Some(RecurrenceInput(Some(c.recurrence.pattern),
                           match c.recurrence.daysOfWeek case None => None
                             case Some(d) => Some(seq(|d|, i requires 0 <= i < |d| => d[i] as real)),
                           Some(c.recurrence.timezone))),
      Some(c.startTime), Some(c.endTime), Some(c.timezone), Some(c.isActive))
  }

  /** The validator admits exactly the templates the schema describes: every
      template the store can hold is accepted back unchanged. */
  lemma ValidateAcceptsValid(c: ClassDef)
    requires SchemaValid(c)
    ensures ValidateClass(InputOf(c), c.id) == Ok(c)
  {
    if c.recurrence.daysOfWeek.Some? {
      var d := c.recurrence.daysOfWeek.value;
      var reals := seq(|d|, i requires 0 <= i < |d| => d[i] as real);
      assert Days(reals) == d;
    }
  }

  /** Defaults: priceCredits 1 and isActive true when omitted. */
  lemma ValidateDefaults(input: ClassInput, id: nat)
    requires Accepts(input) && input.priceCredits.None? && input.isActive.None?
    ensures ValidateClass(input, id).Ok?
    ensures ValidateClass(input, id).value.priceCredits == 1 && ValidateClass(input, id).value.isActive
  {
  }

  /** Not checked: the end time may precede the start time, and a weekly pattern
      may omit its weekdays. */
  lemma ValidateChecksNoOrder(input: ClassInput, id: nat)
    requires Accepts(input)
    ensures ValidateClass(input.(startTime := Some("23:00"), endTime := Some("1:00")), id).Ok?
    ensures input.recurrencePattern.value.pattern == Some("weekly") ==>
      ValidateClass(input.(recurrencePattern := Some(input.recurrencePattern.value.(daysOfWeek := None))), id).Ok?
  {
    assert ClockPattern("23:00") by {
      assert "23:00"[..2] == "23" && "23:00"[3..] == "00";
    }
    assert ClockPattern("1:00") by {
      assert "1:00"[..1] == "1" && "1:00"[2..] == "00";
    }
  }

  // ---------------------------------------------------------------------
  // The clock pattern

  /** "H:MM" with the unpadded hour matches the pattern and parses back. */
  lemma FormatClockRoundTrip(h: int, m: int)
    requires 0 <= h < 24 && 0 <= m < 60
    ensures ClockPattern(FormatClock(h, m))
    ensures ParseClock(FormatClock(h, m)) == (h, m)
  {
    var s := FormatClock(h, m);
    if h < 10 {
      assert NatToString(h) == [DigitChar(h)];
      assert s == [DigitChar(h), ':', DigitChar(m / 10), DigitChar(m % 10)];
      assert s[..|s| - 3] == [DigitChar(h)];
    } else {
      assert NatToString(h / 10) == [DigitChar(h / 10)];
      assert NatToString(h) == [DigitChar(h / 10), DigitChar(h % 10)];
      assert s == [DigitChar(h / 10), DigitChar(h % 10), ':', DigitChar(m / 10), DigitChar(m % 10)];
      assert s[..|s| - 3] == [DigitChar(h / 10), DigitChar(h % 10)];
    }
    assert s[|s| - 2..] == [DigitChar(m / 10), DigitChar(m % 10)];
  }

  /** "HH:MM" with the padded hour matches the pattern and parses back. */
  lemma FormatClockPaddedRoundTrip(h: int, m: int)
    requires 0 <= h < 24 && 0 <= m < 60
    ensures ClockPattern(FormatClockPadded(h, m))
    ensures ParseClock(FormatClockPadded(h, m)) == (h, m)
  {
    var s := FormatClockPadded(h, m);
    assert s == [DigitChar(h / 10), DigitChar(h % 10), ':', DigitChar(m / 10), DigitChar(m % 10)];
    assert s[..|s| - 3] == [DigitChar(h / 10), DigitChar(h % 10)];
    assert s[|s| - 2..] == [DigitChar(m / 10), DigitChar(m % 10)];
  }

  /** The pattern admits nothing else: every accepted string is one of the two
      spellings of the time it parses to. */
  lemma ClockPatternExact(s: string)
    requires ClockPattern(s)
    ensures var (h, m) := ParseClock(s);
      s == FormatClock(h, m) || s == FormatClockPadded(h, m)
  {
    var (h, m) := ParseClock(s);
    var tail := s[|s| - 2..];
    assert DigitChar(m / 10) == tail[0] && DigitChar(m % 10) == tail[1];
    if |s| == 4 {
      assert NatToString(h) == [DigitChar(h)];
      assert s == [s[0], ':', tail[0], tail[1]];
      assert s == FormatClock(h, m);
    } else {
      assert DigitChar(h / 10) == s[0] && DigitChar(h % 10) == s[1];
      assert s == [s[0], s[1], ':', tail[0], tail[1]];
      assert s == FormatClockPadded(h, m);
    }
  }

  // ---------------------------------------------------------------------
  // GET /api/classes

  lemma LexLeTotalPreorder()
    ensures forall a, b :: LexLe(a, b) || LexLe(b, a)
    ensures forall a, b, c :: LexLe(a, b) && LexLe(b, c) ==> LexLe(a, c)
  {
    forall a, b
      ensures LexLe(a, b) || LexLe(b, a)
    {
      LexLeTotal(a, b);
    }
    forall a, b, c | LexLe(a, b) && LexLe(b, c)
      ensures LexLe(a, c)
    {
      LexLeTransitive(a, b, c);
    }
  }

  function ByName(): (le: (ClassDef, ClassDef) -> bool)
    ensures TotalPreorder(le)
    ensures forall a, b :: le(a, b) <==> LexLe(a.name, b.name)
  {
    LexLeTotalPreorder();
    (a: ClassDef, b: ClassDef) => LexLe(a.name, b.name)
  }

  /** `app/api/classes/route.ts` lines 24-45: active templates only with `available=true`,
      ordered by name. */
  function ListClasses(classes: seq<ClassDef>, available: Option<string>): (r: seq<ClassDef>)
    ensures multiset(r) == multiset(Filter(classes, (c: ClassDef) => !QueryFlag(available) || c.isActive))
    ensures QueryFlag(available) ==> forall i :: 0 <= i < |r| ==> r[i].isActive
    ensures !QueryFlag(available) ==> multiset(r) == multiset(classes)
    ensures forall i, j :: 0 <= i < j < |r| ==> LexLe(r[i].name, r[j].name)
  {
    var keep := (c: ClassDef) => !QueryFlag(available) || c.isActive;
    var filtered := Filter(classes, keep);
    var r := SortBy(filtered, ByName());
    assert forall i :: 0 <= i < |r| ==> r[i] in multiset(filtered);
    if !QueryFlag(available) then
      FilterAll(classes, keep);
      r
    else r
  }

  // ---------------------------------------------------------------------
  // POST /api/classes

  /** `app/api/classes/route.ts` lines 48-84: a rejected body creates nothing; an accepted one
      is stored as the next row. */
  method CreateClass(db: Db, input: ClassInput) returns (r: Result<ClassDef>)
    requires db.Valid()
    modifies db
    ensures db.Valid()
    ensures r == ValidateClass(input, |old(db.classes)|)
    ensures r.Err? ==> db.classes == old(db.classes)
    ensures r.Ok? ==> db.classes == old(db.classes) + [r.value]
    ensures db.users == old(db.users) && db.customers == old(db.customers) && db.instances == old(db.instances)
    ensures db.bookings == old(db.bookings) && db.transactions == old(db.transactions)
    ensures db.attendances == old(db.attendances) && db.checkpoints == old(db.checkpoints)
    ensures db.notifications == old(db.notifications)
  {
    r := ValidateClass(input, |db.classes|);
    if r.Ok? {
      db.classes := db.classes + [r.value];
    }
  }
}
