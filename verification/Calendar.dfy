/**
 UTC calendar dates as the repository handles them: `YYYY-MM-DD` strings, compared as strings, over
 the proleptic Gregorian calendar of ECMA-262, section 21.4.1. A day is the number of days since
 0000-01-01; a month index counts months since 0000-01.
 */
module Calendar {
  import opened Options

  // ---------- Days and months ----------

  predicate IsLeap(year: nat) {
    year % 4 == 0 && (year % 100 != 0 || year % 400 == 0)
  }

  function DaysInMonth(month: nat): (n: nat)
    ensures 28 <= n <= 31
  {
    var m := month % 12;
    if m == 1 then (if IsLeap(month / 12) then 29 else 28)
    else if m == 3 || m == 5 || m == 8 || m == 10 then 30 else 31
  }

  /** The first day of a month. */
  function MonthStart(month: nat): nat {
    if month == 0 then 0 else MonthStart(month - 1) + DaysInMonth(month - 1)
  }

  function MonthFrom(day: nat, month: nat): (r: nat)
    requires MonthStart(month) <= day
    ensures MonthStart(r) <= day < MonthStart(r) + DaysInMonth(r)
    decreases day - MonthStart(month)
  {
    if day < MonthStart(month) + DaysInMonth(month) then month else MonthFrom(day, month + 1)
  }

  /** The month a day lies in. */
  function MonthOf(day: nat): (r: nat)
    ensures MonthStart(r) <= day < MonthStart(r) + DaysInMonth(r)
  {
    MonthFrom(day, 0)
  }

  function YearOf(day: nat): nat {
    MonthOf(day) / 12
  }

  lemma {:induction false} MonthStartMono(a: nat, b: nat)
    requires a < b
    ensures MonthStart(a) + DaysInMonth(a) <= MonthStart(b)
  {
    if a + 1 < b {
      MonthStartMono(a, b - 1);
    }
  }

  /** Months partition the days: a day lies in exactly one. */
  lemma MonthUnique(day: nat, month: nat)
    ensures MonthOf(day) == month <==> MonthStart(month) <= day < MonthStart(month + 1)
  {
    if MonthOf(day) < month {
      MonthStartMono(MonthOf(day), month);
    } else if month < MonthOf(day) {
      MonthStartMono(month, MonthOf(day));
    }
  }

  lemma MonthOfMono(a: nat, b: nat)
    requires a <= b
    ensures MonthOf(a) <= MonthOf(b)
  {
    if MonthOf(b) < MonthOf(a) {
      MonthStartMono(MonthOf(b), MonthOf(a));
    }
  }

  // ---------- Decimal text ----------

  function Pow(w: nat): (r: nat)
    ensures r >= 1
  {
    if w == 0 then 1 else 10 * Pow(w - 1)
  }

  function Digit(n: nat): (c: char)
    requires n < 10
    ensures '0' <= c <= '9'
  {
    '0' + n as char
  }

  function Pad(n: nat, w: nat): (s: string)
    ensures |s| == w && forall i :: 0 <= i < w ==> '0' <= s[i] <= '9'
  {
    if w == 0 then "" else Pad(n / 10, w - 1) + [Digit(n % 10)]
  }

  predicate IsDigits(s: string) {
    forall i :: 0 <= i < |s| ==> '0' <= s[i] <= '9'
  }

  function Value(s: string): nat
    requires IsDigits(s)
  {
    if s == "" then 0 else 10 * Value(s[..|s| - 1]) + (s[|s| - 1] as int - '0' as int)
  }

  lemma {:induction false} ValueOfPad(n: nat, w: nat)
    requires n < Pow(w)
    ensures Value(Pad(n, w)) == n
  {
    if w > 0 {
      ValueOfPad(n / 10, w - 1);
      assert Pad(n, w)[..w - 1] == Pad(n / 10, w - 1);
    }
  }

  /** JavaScript's `<` on strings. */
  predicate Less(s: string, t: string) {
    t != "" && (s == "" || s[0] < t[0] || (s[0] == t[0] && Less(s[1..], t[1..])))
  }

  /** Numbers padded to one width compare as strings the way they compare as numbers. */
  lemma {:induction false} PadOrder(a: nat, b: nat, w: nat, s: string, t: string)
    requires a < Pow(w) && b < Pow(w)
    ensures Less(Pad(a, w) + s, Pad(b, w) + t) <==> a < b || (a == b && Less(s, t))
  {
    if w == 0 {
      assert Pad(a, 0) + s == s && Pad(b, 0) + t == t;
    } else {
      var s', t' := [Digit(a % 10)] + s, [Digit(b % 10)] + t;
      assert Pad(a, w) + s == Pad(a / 10, w - 1) + s';
      assert Pad(b, w) + t == Pad(b / 10, w - 1) + t';
      PadOrder(a / 10, b / 10, w - 1, s', t');
      assert s'[1..] == s && t'[1..] == t;
    }
  }

  lemma {:induction false} PadInjective(a: nat, b: nat, w: nat)
    requires a < Pow(w) && b < Pow(w) && Pad(a, w) == Pad(b, w)
    ensures a == b
  {
    ValueOfPad(a, w);
    ValueOfPad(b, w);
  }

  // ---------- Date text ----------

  /** `toISOString().slice(0, 7)` of the first day of a month of a four-digit year. */
  function MonthKey(month: nat): string {
    Pad(month / 12, 4) + "-" + Pad(month % 12 + 1, 2)
  }

  /** `toISOString().slice(0, 10)`; beyond year 9999 the text starts with a sign and six digits. */
  function Format(day: nat): string {
    if YearOf(day) <= 9999 then MonthKey(MonthOf(day)) + "-" + Pad(day - MonthStart(MonthOf(day)) + 1, 2)
    else ("+" + Pad(YearOf(day), 6) + "-" + Pad(MonthOf(day) % 12 + 1, 2))[..10]
  }

  predicate HasDateShape(s: string) {
    |s| == 10 && s[4] == '-' && s[7] == '-' && IsDigits(s[..4]) && IsDigits(s[5..7]) && IsDigits(s[8..])
  }

  function DayOf(year: nat, month: nat, date: nat): nat
    requires 1 <= month && 1 <= date
  {
    MonthStart(12 * year + month - 1) + date - 1
  }

  /** `parseDate`: the shape, then a reading, then the check that formatting the reading gives the text back. */
  function Parse(s: string): Option<nat> {
    if !HasDateShape(s) then None
    else
      var year, month, date := Value(s[..4]), Value(s[5..7]), Value(s[8..]);
      if !(1 <= month <= 12 && 1 <= date <= 31) then None
      else
        var day := DayOf(year, month, date);
        if Format(day) == s then Some(day) else None
  }

  lemma PowValues()
    ensures Pow(2) == 100 && Pow(4) == 10000
  {
    assert Pow(0) == 1 && Pow(1) == 10 && Pow(2) == 100 && Pow(3) == 1000 && Pow(4) == 10000;
  }

  lemma FormatParts(day: nat)
    requires YearOf(day) <= 9999
    ensures var month, s := MonthOf(day), Format(day);
            && |s| == 10 && s[..7] == MonthKey(month) && s[4] == '-' && s[7] == '-'
            && s[..4] == Pad(month / 12, 4) && s[5..7] == Pad(month % 12 + 1, 2)
                && s[8..] == Pad(day - MonthStart(month) + 1, 2)
  {
  }

  lemma ReadBack(s: string, year: nat, month: nat, date: nat)
    requires |s| == 10 && s[4] == '-' && s[7] == '-'
    requires s[..4] == Pad(year, 4) && s[5..7] == Pad(month, 2) && s[8..] == Pad(date, 2)
    requires year <= 9999 && month <= 99 && date <= 99
    ensures HasDateShape(s) && Value(s[..4]) == year && Value(s[5..7]) == month && Value(s[8..]) == date
  {
    PowValues();
    ValueOfPad(year, 4);
    ValueOfPad(month, 2);
    ValueOfPad(date, 2);
  }

  lemma FormatReads(day: nat, year: nat, m: nat, date: nat)
    requires YearOf(day) <= 9999
    requires year == MonthOf(day) / 12 && m == MonthOf(day) % 12 + 1 && date == day - MonthStart(MonthOf(day)) + 1
    ensures var s := Format(day);
            HasDateShape(s) && Value(s[..4]) == year && Value(s[5..7]) == m && Value(s[8..]) == date
  {
    FormatParts(day);
    ReadBack(Format(day), year, m, date);
  }

  lemma DayOfFields(day: nat, month: nat)
    requires MonthStart(month) <= day
    ensures DayOf(month / 12, month % 12 + 1, day - MonthStart(month) + 1) == day
  {
    DayOfParts(month / 12, month % 12 + 1, day - MonthStart(month) + 1, month);
  }

  lemma DayOfParts(year: nat, m: nat, date: nat, month: nat)
    requires 1 <= m && 1 <= date && 12 * year + m - 1 == month
    ensures DayOf(year, m, date) == MonthStart(month) + date - 1
  {
  }

  lemma ParseReads(s: string, year: nat, month: nat, date: nat, day: nat)
    requires HasDateShape(s) && Value(s[..4]) == year && Value(s[5..7]) == month && Value(s[8..]) == date
    requires 1 <= month <= 12 && 1 <= date <= 31 && DayOf(year, month, date) == day && Format(day) == s
    ensures Parse(s) == Some(day)
  {
  }

  /** Parsing undoes formatting on every day up to the end of year 9999. */
  lemma ParseFormat(day: nat)
    requires YearOf(day) <= 9999
    ensures Parse(Format(day)) == Some(day)
  {
    var month := MonthOf(day);
    var year, m, date := month / 12, month % 12 + 1, day - MonthStart(month) + 1;
    FormatReads(day, year, m, date);
    DayOfFields(day, month);
    ParseReads(Format(day), year, m, date, day);
  }

  /** Parsing accepts exactly the texts of real dates of years 0 to 9999, and formatting undoes it. */
  lemma ParseAcceptsRealDates(s: string)
    ensures Parse(s).Some? <==> exists day: nat :: YearOf(day) <= 9999 && Format(day) == s
    ensures Parse(s).Some? ==> Format(Parse(s).value) == s && YearOf(Parse(s).value) <= 9999
  {
    if Parse(s).Some? {
      assert YearOf(Parse(s).value) <= 9999 by {
        assert s[0] != '+' by { assert s[..4][0] == s[0]; }
      }
    }
    forall day: nat | YearOf(day) <= 9999 && Format(day) == s ensures Parse(s).Some? {
      ParseFormat(day);
    }
  }

  lemma LessCons(c: char, s: string, t: string)
    ensures Less([c] + s, [c] + t) <==> Less(s, t)
  {
    assert ([c] + s)[1..] == s && ([c] + t)[1..] == t;
  }

  /** Padded fields `a` and `b`, each followed by a dash and a rest, compare by the field, then by the rest. */
  lemma FieldOrder(a: nat, b: nat, w: nat, s: string, t: string, s': string, t': string)
    requires a < Pow(w) && b < Pow(w)
    requires s' == Pad(a, w) + (['-'] + s) && t' == Pad(b, w) + (['-'] + t)
    ensures Less(s', t') <==> a < b || (a == b && Less(s, t))
  {
    PadOrder(a, b, w, ['-'] + s, ['-'] + t);
    LessCons('-', s, t);
  }

  lemma Regroup(a: string, dash: string, b: string, c: string)
    ensures a + dash + b + dash + c == a + (dash + (b + (dash + (c + ""))))
  {
  }

  lemma FormatFields(day: nat) returns (months: string, days: string)
    requires YearOf(day) <= 9999
    ensures var month := MonthOf(day);
            && Format(day) == Pad(month / 12, 4) + (['-'] + months)
            && months == Pad(month % 12 + 1, 2) + (['-'] + days)
            && days == Pad(day - MonthStart(month) + 1, 2) + ""
  {
    var month := MonthOf(day);
    var year, m, date := Pad(month / 12, 4), Pad(month % 12 + 1, 2), Pad(day - MonthStart(month) + 1, 2);
    days := date + "";
    months := m + (['-'] + days);
    assert Format(day) == year + "-" + m + "-" + date;
    Regroup(year, "-", m, date);
  }

  lemma FieldsOrder(a: nat, b: nat, ma: nat, mb: nat, da: nat, db: nat)
    requires YearOf(a) <= 9999 && YearOf(b) <= 9999 && ma == MonthOf(a) && mb == MonthOf(b)
    requires da == a - MonthStart(ma) + 1 && db == b - MonthStart(mb) + 1
    ensures Less(Format(a), Format(b)) <==> ma < mb || (ma == mb && da < db)
  {
    var monthsA, daysA := FormatFields(a);
    var monthsB, daysB := FormatFields(b);
    PowValues();
    FieldOrder(ma / 12, mb / 12, 4, monthsA, monthsB, Format(a), Format(b));
    FieldOrder(ma % 12 + 1, mb % 12 + 1, 2, daysA, daysB, monthsA, monthsB);
    PadOrder(da, db, 2, "", "");
    MonthFieldsOrder(ma, mb);
  }

  lemma MonthFieldsOrder(a: nat, b: nat)
    ensures a < b <==> a / 12 < b / 12 || (a / 12 == b / 12 && a % 12 + 1 < b % 12 + 1)
    ensures a == b <==> a / 12 == b / 12 && a % 12 + 1 == b % 12 + 1
  {
  }

  /** String order of dates is chronological order. */
  lemma StringOrderIsChronological(a: nat, b: nat)
    requires YearOf(a) <= 9999 && YearOf(b) <= 9999
    ensures Less(Format(a), Format(b)) <==> a < b
    ensures Format(a) == Format(b) <==> a == b
  {
    var ma, mb := MonthOf(a), MonthOf(b);
    var da, db := a - MonthStart(ma) + 1, b - MonthStart(mb) + 1;
    FieldsOrder(a, b, ma, mb, da, db);
    if ma < mb {
      MonthStartMono(ma, mb);
    } else if mb < ma {
      MonthStartMono(mb, ma);
    }
    if Format(a) == Format(b) {
      ParseFormat(a);
      ParseFormat(b);
    }
  }

  predicate StartsWith(s: string, prefix: string) {
    |prefix| <= |s| && s[..|prefix|] == prefix
  }

  /** A date starts with a month key exactly when it lies in that month. */
  lemma MonthPrefix(day: nat, month: nat)
    requires YearOf(day) <= 9999 && month / 12 <= 9999
    ensures StartsWith(Format(day), MonthKey(month)) <==> MonthOf(day) == month
  {
    assert Format(day)[..7] == MonthKey(MonthOf(day));
    if MonthKey(MonthOf(day)) == MonthKey(month) {
      MonthKeyInjective(MonthOf(day), month);
    }
  }

  lemma MonthKeyInjective(a: nat, b: nat)
    requires a / 12 <= 9999 && b / 12 <= 9999 && MonthKey(a) == MonthKey(b)
    ensures a == b
  {
    PowValues();
    assert MonthKey(a)[..4] == Pad(a / 12, 4) && MonthKey(a)[5..] == Pad(a % 12 + 1, 2);
    assert MonthKey(b)[..4] == Pad(b / 12, 4) && MonthKey(b)[5..] == Pad(b % 12 + 1, 2);
    PadInjective(a / 12, b / 12, 4);
    PadInjective(a % 12 + 1, b % 12 + 1, 2);
  }

  // ---------- Ranges ----------

  datatype DateRange = DateRange(start: string, end: string, days: nat)

  /** `resolveDateRange`, with `maxDays` when the range limit is enforced. */
  function ResolveDateRange(start: string, end: string, maxDays: Option<int>): Result<DateRange> {
    var first, last := Parse(start), Parse(end);
    if first.None? || last.None? then Err("Invalid date")
    else if last.value < first.value then Err("end must be greater than or equal to start")
    else
      var days := last.value - first.value + 1;
      if maxDays.Some? && days > maxDays.value then Err("Requested range is too long")
      else Ok(DateRange(start, end, days))
  }

  /** `Date.UTC(year, month, 1)` reads a year below 100 as a year of the twentieth century. */
  function UtcMonth(month: nat): nat {
    if month / 12 < 100 then month + 12 * 1900 else month
  }

  function Months(first: nat, last: nat): (r: seq<nat>)
    ensures |r| == if last < first then 0 else last - first + 1
    ensures forall i :: 0 <= i < |r| ==> r[i] == first + i
  {
    if last < first then [] else seq(last - first + 1, i requires 0 <= i => first + i)
  }

  function MonthKeys(months: seq<nat>): (r: seq<string>)
    ensures |r| == |months| && forall i :: 0 <= i < |r| ==> r[i] == MonthKey(months[i])
  {
    seq(|months|, i requires 0 <= i < |months| => MonthKey(months[i]))
  }

  /** `monthKeysForRange`. */
  method MonthKeysForRange(start: string, end: string) returns (r: Result<seq<string>>)
    ensures r.Ok? <==> Parse(start).Some? && Parse(end).Some?
    ensures r.Ok? ==>
              var first, last := MonthOf(Parse(start).value), MonthOf(Parse(end).value);
              r.value == MonthKeys(Months(UtcMonth(first), UtcMonth(last)))
  {
    var first, last := Parse(start), Parse(end);
    if first.None? || last.None? {
      return Err("Invalid date");
    }
    ParseAcceptsRealDates(start);
    ParseAcceptsRealDates(end);
    var keys := KeysBetween(UtcMonth(MonthOf(first.value)), UtcMonth(MonthOf(last.value)));
    r := Ok(keys);
  }

  /** The cursor loop of `monthKeysForRange`. */
  method KeysBetween(first: nat, endMonth: nat) returns (keys: seq<string>)
    requires endMonth / 12 <= 9999
    ensures keys == MonthKeys(Months(first, endMonth))
  {
    keys := [];
    var cursor := first;
    while cursor <= endMonth
      invariant first <= cursor && (if first <= endMonth then cursor <= endMonth + 1 else cursor == first)
      invariant |keys| == cursor - first && forall i :: 0 <= i < |keys| ==> keys[i] == MonthKey(first + i)
    {
      MonthText(cursor);
      keys := keys + [Format(MonthStart(cursor))[..7]];
      cursor := cursor + 1;
    }
    OneKeyPerMonth(keys, first, endMonth);
  }

  lemma OneKeyPerMonth(keys: seq<string>, first: nat, endMonth: nat)
    requires |keys| == if first <= endMonth then endMonth + 1 - first else 0
    requires forall i :: 0 <= i < |keys| ==> keys[i] == MonthKey(first + i)
    ensures keys == MonthKeys(Months(first, endMonth))
  {
    var months := Months(first, endMonth);
    assert |keys| == |months|;
    forall i | 0 <= i < |keys| ensures keys[i] == MonthKeys(months)[i] {
      assert months[i] == first + i;
    }
  }

  lemma MonthText(month: nat)
    requires month / 12 <= 9999
    ensures |Format(MonthStart(month))| == 10 && Format(MonthStart(month))[..7] == MonthKey(month)
  {
    MonthUnique(MonthStart(month), month);
    FormatParts(MonthStart(month));
  }

  /**
   The month keys of a nonempty range are exactly the months from that of its first day to that of its
   last, if and only if the range starts in year 100 or later.
   */
  lemma MonthKeysExact(first: nat, last: nat)
    requires first <= last && YearOf(last) <= 9999
    ensures MonthKeys(Months(UtcMonth(MonthOf(first)), UtcMonth(MonthOf(last))))
            == MonthKeys(Months(MonthOf(first), MonthOf(last)))
            <==> YearOf(first) >= 100
  {
    MonthOfMono(first, last);
    if YearOf(first) < 100 {
      var actual := Months(UtcMonth(MonthOf(first)), UtcMonth(MonthOf(last)));
      var months := Months(MonthOf(first), MonthOf(last));
      if MonthKeys(actual) == MonthKeys(months) {
        assert |actual| == |months|;
        assert MonthKeys(actual)[0] == MonthKeys(months)[0];
        MonthKeyInjective(actual[0], months[0]);
      }
    }
  }

  /** Each day of the range lies in exactly one of the months, and the months strictly increase without gaps. */
  lemma MonthsPartition(first: nat, last: nat, day: nat)
    requires first <= day <= last
    ensures var months := Months(MonthOf(first), MonthOf(last));
            exists i :: 0 <= i < |months| && months[i] == MonthOf(day)
                        && forall j :: 0 <= j < |months| && MonthStart(months[j]) <= day < MonthStart(months[j] + 1) ==>
                            j == i
  {
    MonthOfMono(first, day);
    MonthOfMono(day, last);
    var months := Months(MonthOf(first), MonthOf(last));
    assert months[MonthOf(day) - MonthOf(first)] == MonthOf(day);
    forall j | 0 <= j < |months| && MonthStart(months[j]) <= day < MonthStart(months[j] + 1)
      ensures j == MonthOf(day) - MonthOf(first)
    {
      MonthUnique(day, months[j]);
    }
  }

  // ---------- Client chunks ----------

  datatype Chunk = Chunk(first: nat, last: nat)

  /** The pieces of at most `maxDays` days, from `first` on. */
  function Chunks(first: nat, last: nat, maxDays: int): (r: seq<Chunk>)
    requires maxDays >= 1
    decreases last + 1 - first
  {
    if last < first then []
    else
      var end := if last <= first + maxDays - 1 then last else first + maxDays - 1;
      [Chunk(first, end)] + Chunks(end + 1, last, maxDays)
  }

  /** The chunks tile the range: consecutive, none empty, none over `maxDays`. */
  lemma {:induction false} ChunksTile(first: nat, last: nat, maxDays: int)
    requires maxDays >= 1 && first <= last
    ensures var r := Chunks(first, last, maxDays);
            && r != [] && r[0].first == first && r[|r| - 1].last == last
            && (forall i :: 0 <= i < |r| ==>
                first <= r[i].first <= r[i].last <= last && r[i].last - r[i].first + 1 <= maxDays)
            && (forall i :: 0 < i < |r| ==> r[i].first == r[i - 1].last + 1)
    decreases last - first
  {
    var end := if last <= first + maxDays - 1 then last else first + maxDays - 1;
    if end < last {
      ChunksTile(end + 1, last, maxDays);
    }
  }

  datatype ChunkText = ChunkText(start: string, end: string)

  function FormatChunk(c: Chunk): ChunkText {
    ChunkText(Format(c.first), Format(c.last))
  }

  /** The API accepts every chunk of a range that ends by year 9999. */
  lemma ChunksAccepted(first: nat, last: nat, maxDays: int)
    requires maxDays >= 1 && first <= last && YearOf(last) <= 9999
    ensures forall c :: c in Chunks(first, last, maxDays) ==>
              ResolveDateRange(FormatChunk(c).start, FormatChunk(c).end, Some(maxDays)).Ok?
  {
    ChunksTile(first, last, maxDays);
    forall c | c in Chunks(first, last, maxDays)
      ensures ResolveDateRange(FormatChunk(c).start, FormatChunk(c).end, Some(maxDays)).Ok?
    {
      ChunkAccepted(c, last, maxDays);
    }
  }

  /** `splitRange` of the client. */
  method SplitRange(start: string, end: string, maxDays: int) returns (r: Result<seq<ChunkText>>)
    ensures r.Ok? <==> maxDays >= 1 && ResolveDateRange(start, end, None).Ok?
    ensures r.Ok? ==>
              var chunks := Chunks(Parse(start).value, Parse(end).value, maxDays);
              |r.value| == |chunks| && forall i :: 0 <= i < |chunks| ==> r.value[i] == FormatChunk(chunks[i])
    ensures r.Ok? ==> forall i :: 0 <= i < |r.value| ==>
            ResolveDateRange(r.value[i].start, r.value[i].end, Some(maxDays)).Ok?
  {
    if maxDays < 1 {
      return Err("maxRangeDays must be greater than zero");
    }
    var first, last := Parse(start), Parse(end);
    if first.None? || last.None? {
      return Err("Invalid date");
    }
    if last.value < first.value {
      return Err("end must be greater than or equal to start");
    }
    ParseAcceptsRealDates(end);
    var chunks := SplitDays(first.value, last.value, maxDays);
    ChunksAccepted(first.value, last.value, maxDays);
    r := Ok(chunks);
  }

  lemma ChunkFirst(done: seq<Chunk>, chunk: Chunk, rest: seq<Chunk>)
    ensures done + ([chunk] + rest) == done + [chunk] + rest
  {
  }

  /** The cursor loop of `splitRange`. */
  method SplitDays(first: nat, last: nat, maxDays: int) returns (chunks: seq<ChunkText>)
    requires maxDays >= 1 && first <= last && YearOf(last) <= 9999
    ensures var all := Chunks(first, last, maxDays);
            |chunks| == |all| && forall i :: 0 <= i < |all| ==> chunks[i] == FormatChunk(all[i])
  {
    chunks := [];
    ghost var done: seq<Chunk> := [];
    ghost var all := Chunks(first, last, maxDays);
    var cursor := first;
    while cursor <= last
      invariant cursor <= last + 1
      invariant all == done + Chunks(cursor, last, maxDays)
      invariant |chunks| == |done| && forall i :: 0 <= i < |chunks| ==> chunks[i] == FormatChunk(done[i])
      decreases last + 1 - cursor
    {
      var chunkEnd := if last <= cursor + maxDays - 1 then last else cursor + maxDays - 1;
      var chunk := Chunk(cursor, chunkEnd);
      chunks := chunks + [FormatChunk(chunk)];
      ChunkFirst(done, chunk, Chunks(chunkEnd + 1, last, maxDays));
      done := done + [chunk];
      cursor := chunkEnd + 1;
    }
  }

  /** The API accepts a chunk of at most `maxDays` days. */
  lemma ChunkAccepted(c: Chunk, last: nat, maxDays: int)
    requires c.first <= c.last <= last && YearOf(last) <= 9999 && c.last - c.first + 1 <= maxDays
    ensures ResolveDateRange(FormatChunk(c).start, FormatChunk(c).end, Some(maxDays)).Ok?
  {
    MonthOfMono(c.first, last);
    MonthOfMono(c.last, last);
    ParseFormat(c.first);
    ParseFormat(c.last);
  }
}
