// web-service/static/app.js: the pure parts of EventManager.  The local-time
// fields of a JavaScript Date, the submitted FormData and the event list the
// server returns are plain values; the DOM and the HTML markup are not modelled.

module WebApp {
  import opened Base
  import opened Text
  import TimeLayout
  import EventsService

  // ----- openModal: default start and end -----

  const HourMs := 60 * 60 * 1000

  /** Milliseconds since the epoch of the default start and end: one and two hours after now. */
  function DefaultTimes(nowMs: int): (r: (int, int))
    ensures r.0 - nowMs == HourMs
    ensures r.1 - r.0 == HourMs
  {
    (nowMs + 60 * 60 * 1000, nowMs + 2 * 60 * 60 * 1000)
  }

  // ----- formatDateTimeLocal -----

  /** getFullYear(), getMonth() (zero-based), getDate(), getHours(), getMinutes(). */
  datatype LocalDate = LocalDate(fullYear: int, monthIndex: int, date: int, hours: int, minutes: int)

  /** The readings a Date can give: every field in its calendar range. */
  predicate IsCalendarReading(d: LocalDate)
  {
    && 0 <= d.monthIndex < 12
    && 1 <= d.date <= TimeLayout.DaysIn(d.monthIndex + 1, d.fullYear)
    && 0 <= d.hours < 24
    && 0 <= d.minutes < 60
  }

  /** `String(n).padStart(2, '0')`. */
  function Pad2(n: int): string
  {
    PadStart(IntToDecimal(n), 2, '0')
  }

  /** The year as String(getFullYear()) gives it, then the four zero-padded fields. */
  function FormatDateTimeLocal(d: LocalDate): (r: string)
    ensures |r| >= |IntToDecimal(d.fullYear)| && r[..|IntToDecimal(d.fullYear)|] == IntToDecimal(d.fullYear)
    ensures IsCalendarReading(d) ==> |r| == |IntToDecimal(d.fullYear)| + 12
  {
    SuffixLength(d);
    IntToDecimal(d.fullYear) + DateSuffix(d)
  }

  lemma SuffixLength(d: LocalDate)
    ensures IsCalendarReading(d) ==> |DateSuffix(d)| == 12
  {
    if IsCalendarReading(d) {
      SuffixShape(d);
    }
  }

  /** Everything after the year: `-MM-DDTHH:MM`. */
  function DateSuffix(d: LocalDate): string
  {
    "-" + Pad2(d.monthIndex + 1) + "-" + Pad2(d.date) + "T" + Pad2(d.hours) + ":" + Pad2(d.minutes)
  }

  /** The two digits of a number below 100 read back as that number. */
  lemma TwoDigitRoundTrip(n: nat)
    requires n < 100
    ensures TimeLayout.TwoDigitValue(DigitChar(n / 10), DigitChar(n % 10)) == n
  {
  }

  /** A field below 100 renders as exactly two digits. */
  lemma Pad2Digits(n: int)
    requires 0 <= n < 100
    ensures Pad2(n) == [DigitChar(n / 10), DigitChar(n % 10)]
  {
    TwoDigits(n);
  }

  /** Every field after the year is two digits, so the year is followed by twelve fixed-position characters. */
  lemma SuffixShape(d: LocalDate)
    requires IsCalendarReading(d)
    ensures var m, day, h, min := d.monthIndex + 1, d.date, d.hours, d.minutes;
      DateSuffix(d) == ['-', DigitChar(m / 10), DigitChar(m % 10), '-', DigitChar(day / 10), DigitChar(day % 10),
                        'T', DigitChar(h / 10), DigitChar(h % 10), ':', DigitChar(min / 10), DigitChar(min % 10)]
  {
    Pad2Digits(d.monthIndex + 1);
    Pad2Digits(d.date);
    Pad2Digits(d.hours);
    Pad2Digits(d.minutes);
    Assemble(Pad2(d.monthIndex + 1), Pad2(d.date), Pad2(d.hours), Pad2(d.minutes));
  }

  lemma Assemble(a: string, b: string, c: string, e: string)
    requires |a| == |b| == |c| == |e| == 2
    ensures "-" + a + "-" + b + "T" + c + ":" + e == ['-', a[0], a[1], '-', b[0], b[1], 'T', c[0], c[1], ':', e[0], e[1]]
  {
  }

  /**
   * For a four-digit year the text is 16 characters long and events-service's
   * parser reads back exactly the fields it was built from (month one-based).
   */
  lemma FormatIsParsed(d: LocalDate)
    requires IsCalendarReading(d) && 1000 <= d.fullYear <= 9999
    ensures |FormatDateTimeLocal(d)| == 16
    ensures TimeLayout.Parse(FormatDateTimeLocal(d))
            == Some(TimeLayout.DateTime(d.fullYear, d.monthIndex + 1, d.date, d.hours, d.minutes))
  {
    SuffixShape(d);
    var y := NatToDecimal(d.fullYear);
    FourDigitYear(d.fullYear);
    DecimalRoundTrip(d.fullYear);
    var t := DateSuffix(d);
    assert FormatDateTimeLocal(d) == y + t;
    ParseAssembled(y, d.monthIndex + 1, d.date, d.hours, d.minutes);
  }

  lemma FourDigitYear(year: nat)
    requires 1000 <= year <= 9999
    ensures |NatToDecimal(year)| == 4
  {
    assert Pow10(3) == 1000 && Pow10(4) == 10000;
    DecimalLength(year, 4);
  }

  /** The parser reads a four-digit year and the twelve fixed-position characters field by field. */
  lemma ParseAssembled(y: string, m: nat, day: nat, h: nat, min: nat)
    requires |y| == 4 && AllDigits(y)
    requires 1 <= m <= 12 && 1 <= day <= TimeLayout.DaysIn(m, DecimalValue(y)) && h < 24 && min < 60
    ensures TimeLayout.Parse(y + ['-', DigitChar(m / 10), DigitChar(m % 10), '-', DigitChar(day / 10), DigitChar(day % 10),
                                  'T', DigitChar(h / 10), DigitChar(h % 10), ':', DigitChar(min / 10), DigitChar(min % 10)])
            == Some(TimeLayout.DateTime(DecimalValue(y), m, day, h, min))
  {
    var t := ['-', DigitChar(m / 10), DigitChar(m % 10), '-', DigitChar(day / 10), DigitChar(day % 10),
              'T', DigitChar(h / 10), DigitChar(h % 10), ':', DigitChar(min / 10), DigitChar(min % 10)];
    var s := y + t;
    assert s[..4] == y;
    assert s[4] == '-' && s[5] == t[1] && s[6] == t[2] && s[7] == '-' && s[8] == t[4] && s[9] == t[5] && s[10] == 'T';
    assert s[11..] == t[7..];
    assert TimeLayout.TwoDigitValue(s[5], s[6]) == m by { TwoDigitRoundTrip(m); }
    assert TimeLayout.TwoDigitValue(s[8], s[9]) == day by { TwoDigitRoundTrip(day); }
    ClockDigits(h, min);
  }

  lemma ClockDigits(h: nat, min: nat)
    requires h < 24 && min < 60
    ensures TimeLayout.ParseClock([DigitChar(h / 10), DigitChar(h % 10), ':', DigitChar(min / 10), DigitChar(min % 10)])
            == Some((h, min))
  {
    TwoDigitRoundTrip(h);
    TwoDigitRoundTrip(min);
  }

  /** Only a four-digit year gives text that events-service accepts: fewer digits, more digits or a sign are refused. */
  lemma FormatParsesOnlyFourDigitYears(d: LocalDate)
    requires IsCalendarReading(d)
    ensures TimeLayout.Parse(FormatDateTimeLocal(d)).Some? <==> 1000 <= d.fullYear <= 9999
  {
    if 1000 <= d.fullYear <= 9999 {
      FormatIsParsed(d);
    } else {
      FormatRefused(d);
    }
  }

  lemma FormatRefused(d: LocalDate)
    requires IsCalendarReading(d) && !(1000 <= d.fullYear <= 9999)
    ensures TimeLayout.Parse(FormatDateTimeLocal(d)).None?
  {
    var y, t := IntToDecimal(d.fullYear), DateSuffix(d);
    YearShape(d.fullYear);
    assert t[0] == '-';
    YearRefused(y, t);
  }

  /** Outside 1000..9999 the year's text is signed, shorter than four characters, or has a digit in the fifth place. */
  lemma YearShape(year: int)
    requires !(1000 <= year <= 9999)
    ensures var y := IntToDecimal(year);
      |y| > 0 && (y[0] == '-' || |y| < 4 || (|y| > 4 && y[4] != '-'))
  {
    if year < 0 {
    } else if year < 1000 {
      ShortYear(year);
    } else {
      DecimalLengthAbove(year, 4);
      assert IsDigit(NatToDecimal(year)[4]);
    }
  }

  /**
   * The parser refuses a year that is signed, or has fewer or more than four
   * digits, whatever follows it.
   */
  lemma YearRefused(y: string, t: string)
    requires |y| > 0 && |t| > 0 && t[0] == '-'
    requires y[0] == '-' || |y| < 4 || (|y| > 4 && y[4] != '-')
    ensures TimeLayout.Parse(y + t).None?
  {
    var s := y + t;
    if y[0] == '-' {
      assert s[0] == '-';
      ParseNeedsFourDigits(s, 0);
    } else if |y| < 4 {
      assert s[|y|] == '-';
      ParseNeedsFourDigits(s, |y|);
    } else {
      assert s[4] == y[4];
      ParseNeedsDash(s);
    }
  }

  /** The parser refuses text with a '-' among its first four characters. */
  lemma ParseNeedsFourDigits(s: string, i: nat)
    requires i < 4 && i < |s| && s[i] == '-'
    ensures TimeLayout.Parse(s).None?
  {
    if |s| >= 11 {
      assert !IsDigit(s[..4][i]);
    }
  }

  /** The parser refuses text whose fifth character is not '-'. */
  lemma ParseNeedsDash(s: string)
    requires |s| > 4 && s[4] != '-'
    ensures TimeLayout.Parse(s).None?
  {
  }

  lemma ShortYear(year: nat)
    requires year < 1000
    ensures |NatToDecimal(year)| < 4
  {
    assert Pow10(1) == 10 && Pow10(2) == 100 && Pow10(3) == 1000;
    if year < 10 {
      DecimalLength(year, 1);
    } else if year < 100 {
      DecimalLength(year, 2);
    } else {
      DecimalLength(year, 3);
    }
  }

  /** A number of at least 10^k has more than k digits. */
  lemma {:induction false} DecimalLengthAbove(n: nat, k: nat)
    requires n >= Pow10(k)
    ensures |NatToDecimal(n)| > k
  {
    if k > 0 {
      DecimalLengthAbove(n / 10, k - 1);
    }
  }

  /**
   * Two readings of four-digit years, the second not earlier than the first,
   * pass events-service's create checks: both parse and the end is not before
   * the start.
   */
  lemma FormattedRangeAccepted(start: LocalDate, end: LocalDate)
    requires IsCalendarReading(start) && 1000 <= start.fullYear <= 9999
    requires IsCalendarReading(end) && 1000 <= end.fullYear <= 9999
    requires !TimeLayout.Before(ReadingOf(end), ReadingOf(start))
    ensures var s, e := TimeLayout.Parse(FormatDateTimeLocal(start)), TimeLayout.Parse(FormatDateTimeLocal(end));
      s.Some? && e.Some? && !TimeLayout.Before(e.value, s.value)
  {
    FormatIsParsed(start);
    FormatIsParsed(end);
  }

  function ReadingOf(d: LocalDate): TimeLayout.DateTime
  {
    TimeLayout.DateTime(d.fullYear, d.monthIndex + 1, d.date, d.hours, d.minutes)
  }

  // ----- handleFormSubmit: the request body -----

  /** The submitted form; FormData.get gives null for a missing field. */
  type FormData = map<string, string>

  function FormGet(form: FormData, name: string): Option<string>
  {
    if name in form then Some(form[name]) else None
  }

  /** `{type: ..., [key]: ...}`: the location object carries one of two keys. */
  datatype LocationPayload = LocationPayload(kind: Option<string>, key: string, value: Option<string>)

  datatype EventPayload = EventPayload(
    title: Option<string>,
    description: Option<string>,
    startTime: Option<string>,
    endTime: Option<string>,
    location: LocationPayload,
    rsvpEnabled: bool,
    imageUrl: Option<string>,
    category: Option<string>)

  const UrlKey := "url"
  const AddressKey := "address"

  function EventData(form: FormData): (p: EventPayload)
    ensures p.location.key == UrlKey <==> FormGet(form, "location_type") == Some("online")
    ensures p.location.key == AddressKey <==> FormGet(form, "location_type") != Some("online")
    ensures p.location.kind == FormGet(form, "location_type") && p.location.value == FormGet(form, "location")
    ensures p.rsvpEnabled <==> "rsvp_enabled" in form && form["rsvp_enabled"] == "on"
    ensures p.startTime == FormGet(form, "start_time") && p.endTime == FormGet(form, "end_time")
    ensures p.title == FormGet(form, "title") && p.description == FormGet(form, "description")
    ensures p.imageUrl == FormGet(form, "image_url") && p.category == FormGet(form, "category")
  {
    var locationType := FormGet(form, "location_type");
    EventPayload(
      FormGet(form, "title"),
      FormGet(form, "description"),
      FormGet(form, "start_time"),
      FormGet(form, "end_time"),
      LocationPayload(locationType, if locationType == Some("online") then "url" else "address", FormGet(form, "location")),
      FormGet(form, "rsvp_enabled") == Some("on"),
      FormGet(form, "image_url"),
      FormGet(form, "category"))
  }

  /** encoding/json into a Go string field: null leaves the zero value "". */
  function StringField(v: Option<string>): string
  {
    if v.Some? then v.value else ""
  }

  /** How events-service decodes the location object into its Location struct. */
  function DecodeLocation(l: LocationPayload): EventsService.Location
  {
    EventsService.Location(
      StringField(l.kind),
      if l.key == AddressKey then StringField(l.value) else "",
      if l.key == UrlKey then StringField(l.value) else "")
  }

  /** The form's location lands in URL for an online event and in Address otherwise, never in both. */
  lemma LocationLandsInOneField(form: FormData)
    ensures var loc := DecodeLocation(EventData(form).location);
      var v := StringField(FormGet(form, "location"));
      if FormGet(form, "location_type") == Some("online") then loc.url == v && loc.address == ""
      else loc.address == v && loc.url == ""
  {
  }

  // ----- displayEvents and createEventCard -----

  /** The fields of a listed event that a card reads; "" stands for a missing or empty value. */
  datatype EventView = EventView(
    title: string,
    description: string,
    category: string,
    imageUrl: string,
    locationType: string,
    address: string,
    rsvpEnabled: bool)

  /** A card's content; the start and end lines use the browser's locale and are not modelled. */
  datatype Card = Card(
    image: Option<string>,
    title: string,
    category: string,
    description: string,
    locationText: string,
    rsvpBadge: bool)

  datatype EventsPane = Placeholder | Cards(cards: seq<Card>)

  /**
   * The two location labels, character for character as the source file holds
   * them: the globe and pin emoji appear there in a mis-decoded form.
   */
  const OnlineLabel := "\U{F8FF}\U{FC}\U{E5}\U{EA} Online Event"
  const PinPrefix := "\U{F8FF}\U{FC}\U{EC}\U{E7} "
  const PhysicalLocation := "Physical Location"
  const NoDescription := "No description provided."

  function LocationText(locationType: string, address: string): (r: string)
    ensures locationType == "online" ==> r == OnlineLabel
    ensures locationType != "online" ==> |r| >= |PinPrefix| && r[..|PinPrefix|] == PinPrefix
    ensures locationType != "online" && address != "" ==> |r| >= |PinPrefix| && r[|PinPrefix|..] == address
    ensures locationType != "online" && address == "" ==> |r| >= |PinPrefix| && r[|PinPrefix|..] == PhysicalLocation
  {
    if locationType == "online" then OnlineLabel
    else PinPrefix + (if address != "" then address else PhysicalLocation)
  }

  /** The label alone tells an online event from a physical one. */
  lemma LocationTextDistinguishes(locationType: string, address: string)
    ensures LocationText(locationType, address) == OnlineLabel <==> locationType == "online"
  {
    if locationType != "online" {
      var r := LocationText(locationType, address);
      assert r[2] == '\U{EC}' != OnlineLabel[2];
    }
  }

  function CreateEventCard(e: EventView): (c: Card)
    ensures c.image.Some? <==> e.imageUrl != ""
    ensures c.image.Some? ==> c.image.value == e.imageUrl
    ensures c.description == if e.description != "" then e.description else NoDescription
    ensures c.locationText == LocationText(e.locationType, e.address)
    ensures c.title == e.title && c.category == e.category && c.rsvpBadge == e.rsvpEnabled
  {
    Card(
      if e.imageUrl != "" then Some(e.imageUrl) else None,
      e.title,
      e.category,
      if e.description != "" then e.description else NoDescription,
      LocationText(e.locationType, e.address),
      e.rsvpEnabled)
  }

  /** `events.map(createEventCard)`, in order. */
  function CardsOf(events: seq<EventView>): (cards: seq<Card>)
    ensures |cards| == |events|
    ensures forall i :: 0 <= i < |events| ==> cards[i] == CreateEventCard(events[i])
  {
    if events == [] then [] else [CreateEventCard(events[0])] + CardsOf(events[1..])
  }

  /** null stands for a missing or null list. */
  function DisplayEvents(events: Option<seq<EventView>>): (pane: EventsPane)
    ensures pane.Placeholder? <==> events.None? || events.value == []
    ensures pane.Cards? ==> |pane.cards| == |events.value|
    ensures pane.Cards? ==> forall i :: 0 <= i < |events.value| ==> pane.cards[i] == CreateEventCard(events.value[i])
  {
    if events.None? || |events.value| == 0 then Placeholder else Cards(CardsOf(events.value))
  }

  /** Rendering a list is rendering its parts and joining them. */
  lemma {:induction false} CardsOfAppend(a: seq<EventView>, b: seq<EventView>)
    ensures CardsOf(a + b) == CardsOf(a) + CardsOf(b)
  {
    if a != [] {
      assert (a + b)[1..] == a[1..] + b;
      CardsOfAppend(a[1..], b);
    }
  }
}
