/** The farming-time estimate shown under the results
    (`calculateExpectedTime`, `formatTimeEstimation` in
    `public/js/calculator.js`): the expected number of appraisals for a
    probability, the minutes they take, and that duration written out in
    days, hours and minutes. */
module TimeEstimate {
  import opened Wrappers
  import opened Decimal

  const MinutesPerHour: nat := 60
  const MinutesPerDay: nat := 1440

  datatype Estimation = Estimation(expectedAppraisals: nat, hours: nat, minutes: nat, totalMinutes: nat)

  /** `Math.round`: the nearest integer, halves rounded up. */
  function Round(x: real): (r: int)
    ensures r as real - 0.5 <= x < r as real + 0.5
  {
    (x + 0.5).Floor
  }

  /** `calculateExpectedTime(probability, minutesPerAppraisal)`: the rounded
      expectation `1 / probability` of a geometric draw, its minutes, and
      those minutes split into whole hours and the remaining minutes. */
  function CalculateExpectedTime(probability: real, minutesPerAppraisal: nat): (e: Estimation)
    requires probability > 0.0
    ensures e.expectedAppraisals as real - 0.5 <= 1.0 / probability < e.expectedAppraisals as real + 0.5
    ensures e.totalMinutes == e.expectedAppraisals * minutesPerAppraisal
    ensures e.hours * MinutesPerHour + e.minutes == e.totalMinutes && e.minutes < MinutesPerHour
  {
    var appraisals := Round(1.0 / probability);
    var total := appraisals * minutesPerAppraisal;
    Estimation(appraisals, total / MinutesPerHour, total % MinutesPerHour, total)
  }

  /** A probability above two thirds rounds to a single appraisal, so the
      estimate is one appraisal's time. */
  lemma LikelyNeedsOneAppraisal(probability: real, minutesPerAppraisal: nat)
    requires 2.0 < probability * 3.0 && probability <= 1.0
    ensures CalculateExpectedTime(probability, minutesPerAppraisal).expectedAppraisals == 1
    ensures CalculateExpectedTime(probability, minutesPerAppraisal).totalMinutes == minutesPerAppraisal
  {
    var x := 1.0 / probability;
    assert x * probability == 1.0;
    if x < 1.0 {
      assert x * probability < 1.0 * probability;
    }
  }

  // ---------------------------------------------------------------------------
  // formatTimeEstimation

  datatype TimeUnit = Days | Hours | Minutes

  /** One shown part of the duration, `${amount}天` and so on. */
  datatype Part = Part(amount: nat, unit: TimeUnit)

  function UnitMinutes(u: TimeUnit): nat
  {
    match u
    case Days => MinutesPerDay
    case Hours => MinutesPerHour
    case Minutes => 1
  }

  function UnitName(u: TimeUnit): string
  {
    match u
    case Days => "天"
    case Hours => "小時"
    case Minutes => "分鐘"
  }

  /** The separator placed after the days when something follows them. */
  const Connector: char := '又'

  /** The duration the parts stand for. */
  function PartsMinutes(parts: seq<Part>): nat
  {
    if parts == [] then 0
    else parts[0].amount * UnitMinutes(parts[0].unit) + PartsMinutes(parts[1..])
  }

  /** The parts shown for `total` minutes: whole days, the hours left over,
      the minutes left over; each only when positive, except that the
      minutes are shown (as 0) when nothing else is. */
  function TimeParts(total: nat): seq<Part>
  {
    PartsOf(total / MinutesPerDay, (total % MinutesPerDay) / MinutesPerHour, total % MinutesPerHour)
  }

  /** The parts shown for a duration already split into days, hours and
      minutes. */
  function PartsOf(days: nat, hours: nat, minutes: nat): seq<Part>
  {
    var dayPart := if days > 0 then [Part(days, Days)] else [];
    var hourPart := if hours > 0 then [Part(hours, Hours)] else [];
    dayPart + hourPart + (if minutes > 0 || dayPart + hourPart == [] then [Part(minutes, Minutes)] else [])
  }

  /** The days, hours and minutes decompose the total: hours below a day and
      minutes below an hour. */
  lemma Decomposition(total: nat)
    ensures var days := total / MinutesPerDay;
            var hours := (total % MinutesPerDay) / MinutesPerHour;
            var minutes := total % MinutesPerHour;
            && days * MinutesPerDay + hours * MinutesPerHour + minutes == total
            && hours < 24 && minutes < MinutesPerHour
  {
    var rest := total % MinutesPerDay;
    var days := total / MinutesPerDay;
    assert total == days * 1440 + rest;
    assert rest % 60 == total % 60 by {
      assert total - rest == days * 24 * 60;
    }
  }

  /** The split parts add up, come in the order days, hours, minutes, and
      carry a zero amount only as the lone minutes of an empty duration. */
  lemma PartsOfFaithful(days: nat, hours: nat, minutes: nat)
    ensures PartsMinutes(PartsOf(days, hours, minutes)) == days * MinutesPerDay + hours * MinutesPerHour + minutes
    ensures 1 <= |PartsOf(days, hours, minutes)| <= 3
    ensures forall k | 0 <= k < |PartsOf(days, hours, minutes)| ::
              PartsOf(days, hours, minutes)[k].amount > 0
              || (days == hours == minutes == 0 && PartsOf(days, hours, minutes) == [Part(0, Minutes)])
    ensures forall k, l | 0 <= k < l < |PartsOf(days, hours, minutes)| ::
              UnitMinutes(PartsOf(days, hours, minutes)[k].unit) > UnitMinutes(PartsOf(days, hours, minutes)[l].unit)
    ensures PartsOf(days, hours, minutes)[|PartsOf(days, hours, minutes)| - 1].unit == Minutes || minutes == 0
  {
    var parts := PartsOf(days, hours, minutes);
    if days > 0 && hours > 0 && minutes > 0 {
      assert parts == [Part(days, Days), Part(hours, Hours), Part(minutes, Minutes)];
      assert PartsMinutes(parts[1..]) == hours * MinutesPerHour + PartsMinutes(parts[2..]);
    } else if days > 0 && hours > 0 {
      assert parts == [Part(days, Days), Part(hours, Hours)];
      assert PartsMinutes(parts[1..]) == PartsMinutes([Part(hours, Hours)]) == hours * MinutesPerHour;
    } else if days > 0 && minutes > 0 {
      assert parts == [Part(days, Days), Part(minutes, Minutes)];
      assert PartsMinutes(parts[1..]) == PartsMinutes([Part(minutes, Minutes)]) == minutes;
    } else if days > 0 {
      assert parts == [Part(days, Days)];
    } else if hours > 0 && minutes > 0 {
      assert parts == [Part(hours, Hours), Part(minutes, Minutes)];
      assert PartsMinutes(parts[1..]) == PartsMinutes([Part(minutes, Minutes)]) == minutes;
    } else if hours > 0 {
      assert parts == [Part(hours, Hours)];
    } else {
      assert parts == [Part(minutes, Minutes)];
    }
  }

  /** The shown parts add up to the total, at least one is shown, they come
      in the order days, hours, minutes, and a zero amount is only ever the
      lone `0分鐘` of an empty duration. */
  lemma TimePartsFaithful(total: nat)
    ensures PartsMinutes(TimeParts(total)) == total
    ensures 1 <= |TimeParts(total)| <= 3
    ensures forall k | 0 <= k < |TimeParts(total)| :: TimeParts(total)[k].amount > 0 || (total == 0 && TimeParts(total) == [Part(0, Minutes)])
    ensures forall k, l | 0 <= k < l < |TimeParts(total)| :: UnitMinutes(TimeParts(total)[k].unit) > UnitMinutes(TimeParts(total)[l].unit)
    ensures TimeParts(total)[|TimeParts(total)| - 1].unit == Minutes || total % MinutesPerHour == 0
  {
    Decomposition(total);
    PartsOfFaithful(total / MinutesPerDay, (total % MinutesPerDay) / MinutesPerHour, total % MinutesPerHour);
  }

  function RenderPart(p: Part): string
  {
    NatToString(p.amount) + UnitName(p.unit)
  }

  function Join(parts: seq<Part>): string
  {
    if parts == [] then "" else RenderPart(parts[0]) + Join(parts[1..])
  }

  /** `formatTimeEstimation(estimation)`: the parts written one after
      another, with the connector after the days when more parts follow. */
  function FormatTimeEstimation(estimation: Estimation): string
  {
    var parts := TimeParts(estimation.totalMinutes);
    var total := estimation.totalMinutes;
    var days := total / MinutesPerDay;
    var hours := (total % MinutesPerDay) / MinutesPerHour;
    var minutes := total % MinutesPerHour;
    if days > 0 && (hours > 0 || minutes > 0) then RenderPart(parts[0]) + [Connector] + Join(parts[1..])
    else Join(parts)
  }

  // ---------------------------------------------------------------------------
  // Reading a formatted duration back

  /** The length of the run of digits at the front of `s`. */
  function DigitRun(s: string): (k: nat)
    ensures k <= |s| && AllDigits(s[..k])
    ensures k < |s| ==> !IsDigit(s[k])
  {
    if s != [] && IsDigit(s[0]) then
      var k := 1 + DigitRun(s[1..]);
      assert forall i | 1 <= i < k :: s[..k][i] == s[1..][..k - 1][i - 1];
      k
    else 0
  }

  /** Reads the number at the front of `s`, and what follows it. */
  function ReadNumber(s: string): (nat, string)
  {
    var k := DigitRun(s);
    (ParseNat(s[..k]), s[k..])
  }

  function ReadUnit(s: string): Option<(TimeUnit, string)>
  {
    if |s| >= 1 && s[..1] == UnitName(Days) then Some((Days, s[1..]))
    else if |s| >= 2 && s[..2] == UnitName(Hours) then Some((Hours, s[2..]))
    else if |s| >= 2 && s[..2] == UnitName(Minutes) then Some((Minutes, s[2..]))
    else None
  }

  /** Reads `number unit` groups, each optionally preceded by the connector. */
  function ReadParts(s: string): Option<seq<Part>>
    decreases |s|
  {
    if s == [] then Some([])
    else
      var body := if s[0] == Connector then s[1..] else s;
      if body == [] || !IsDigit(body[0]) then None
      else
        var (n, rest) := ReadNumber(body);
        match ReadUnit(rest)
        case None => None
        case Some((u, after)) =>
          match ReadParts(after)
          case None => None
          case Some(more) => Some([Part(n, u)] + more)
  }

  /** The minutes a formatted duration stands for. */
  function ParseTimeEstimation(s: string): Option<nat>
  {
    match ReadParts(s)
    case None => None
    case Some(parts) => Some(PartsMinutes(parts))
  }

  lemma {:induction false} DigitRunOf(d: string, rest: string)
    requires AllDigits(d)
    requires rest == [] || !IsDigit(rest[0])
    ensures DigitRun(d + rest) == |d|
  {
    if d != [] {
      assert (d + rest)[1..] == d[1..] + rest;
      DigitRunOf(d[1..], rest);
    } else {
      assert d + rest == rest;
    }
  }

  lemma ReadOnePart(p: Part, tail: string)
    ensures var s := RenderPart(p) + tail;
            && s != [] && IsDigit(s[0])
            && ReadNumber(s) == (p.amount, UnitName(p.unit) + tail)
            && ReadUnit(UnitName(p.unit) + tail) == Some((p.unit, tail))
  {
    var d := NatToString(p.amount);
    var s := RenderPart(p) + tail;
    assert s == d + (UnitName(p.unit) + tail);
    DigitRunOf(d, UnitName(p.unit) + tail);
    assert s[..|d|] == d;
    ParseNatToString(p.amount);
    var w := UnitName(p.unit) + tail;
    assert w[..|UnitName(p.unit)|] == UnitName(p.unit);
    assert w[|UnitName(p.unit)|..] == tail;
  }

  lemma {:induction false} ReadJoin(parts: seq<Part>)
    ensures ReadParts(Join(parts)) == Some(parts)
  {
    if parts != [] {
      var tail := Join(parts[1..]);
      ReadOnePart(parts[0], tail);
      ReadJoin(parts[1..]);
      assert [parts[0]] + parts[1..] == parts;
    }
  }

  lemma ReadAfterConnector(t: string)
    requires t != [] && IsDigit(t[0])
    ensures ReadParts([Connector] + t) == ReadParts(t)
  {
    assert ([Connector] + t)[1..] == t;
  }

  /** The formatted duration reads back as exactly the minutes it was made
      from: nothing is lost by the rounding into days and hours, and the
      connector never confuses two parts. */
  lemma FormatRoundTrip(estimation: Estimation)
    ensures ParseTimeEstimation(FormatTimeEstimation(estimation)) == Some(estimation.totalMinutes)
  {
    var total := estimation.totalMinutes;
    var parts := TimeParts(total);
    TimePartsFaithful(total);
    var days := total / MinutesPerDay;
    var hours := (total % MinutesPerDay) / MinutesPerHour;
    var minutes := total % MinutesPerHour;
    if days > 0 && (hours > 0 || minutes > 0) {
      ReadConnected(parts[0], parts[1..]);
      assert [parts[0]] + parts[1..] == parts;
    } else {
      ReadJoin(parts);
    }
  }

  /** The first part, the connector and the remaining parts read back as all
      the parts. */
  lemma ReadConnected(first: Part, more: seq<Part>)
    requires more != []
    ensures ReadParts(RenderPart(first) + [Connector] + Join(more)) == Some([first] + more)
  {
    var tail := Join(more);
    var s := RenderPart(first) + [Connector] + tail;
    assert s == RenderPart(first) + ([Connector] + tail);
    ReadOnePart(first, [Connector] + tail);
    ReadOnePart(more[0], Join(more[1..]));
    ReadAfterConnector(tail);
    ReadJoin(more);
  }

  /** The connector appears exactly when some days are followed by hours or
      minutes. */
  lemma ConnectorIff(estimation: Estimation)
    ensures Connector in FormatTimeEstimation(estimation) <==>
              estimation.totalMinutes >= MinutesPerDay && estimation.totalMinutes % MinutesPerDay != 0
  {
    var total := estimation.totalMinutes;
    var parts := TimeParts(total);
    TimePartsFaithful(total);
    Decomposition(total);
    NoConnectorInJoin(parts);
    var days := total / MinutesPerDay;
    var hours := (total % MinutesPerDay) / MinutesPerHour;
    var minutes := total % MinutesPerHour;
    if days > 0 && (hours > 0 || minutes > 0) {
      NoConnectorInJoin(parts[..1]);
      assert Join(parts[..1]) == RenderPart(parts[0]) + Join([]);
      NoConnectorInJoin(parts[1..]);
      var s := FormatTimeEstimation(estimation);
      assert s[|RenderPart(parts[0])|] == Connector;
    }
  }

  lemma {:induction false} NoConnectorInJoin(parts: seq<Part>)
    ensures Connector !in Join(parts)
  {
    if parts != [] {
      NoConnectorInJoin(parts[1..]);
      var r := RenderPart(parts[0]);
      assert Connector !in UnitName(parts[0].unit);
      assert Connector !in NatToString(parts[0].amount);
    }
  }
}
