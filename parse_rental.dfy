/**
 * The rental-notification parser (packages/shared/src/parse-rental.ts).
 *
 * Each labelled-field regular expression is modelled by what JavaScript's
 * backtracking matcher finds: the leftmost occurrence of the marker at which
 * the rest of the pattern matches, with the captures that the greedy and
 * lazy quantifiers settle on.
 */
module ParseRental {
  import opened Common
  import opened Text

  const RentalTrigger: string := "Транспорт сдан в аренду!"

  const ServerLabel: string := "Сервер:"
  const CharacterLabel: string := "Персонаж:"
  const VehicleLabel: string := "Транспорт:"
  const PlateLabel: string := "Номер транспорта:"
  const PriceLabel: string := "Цена:"
  const DurationLabel: string := "Длительность:"
  const RenterLabel: string := "Арендатор:"

  /** The alternation `(часов|часа|час|дней|дня|день)`, in the order it is tried. */
  const DurationUnits: seq<string> := ["часов", "часа", "час", "дней", "дня", "день"]

  const DayUnits: seq<string> := ["дней", "дня", "день"]
  const HourUnits: seq<string> := ["часов", "часа", "час"]

  datatype ParsedRental = ParsedRental(
    server: string,
    characterName: string,
    characterId: string,
    vehicleName: string,
    plateNumber: string,
    price: nat,
    durationHours: nat,
    renterName: string)

  /** `isRentalMessage`: the text contains the trigger phrase. */
  predicate IsRentalMessage(text: string) {
    Contains(text, RentalTrigger)
  }

  lemma IsRentalMessageIff(text: string)
    ensures IsRentalMessage(text) <==> exists k: nat :: OccursAt(text, RentalTrigger, k)
  {
    ContainsIff(text, RentalTrigger);
  }

  /**
   * `text.match(new RegExp(marker + tail))`: the first occurrence of `marker`
   * after which `tail` matches.
   */
  function FirstMatch<T>(text: string, marker: string, tail: (string, nat) -> Option<T>): (r: Option<T>)
    ensures r.Some? ==> exists p: nat :: OccursAt(text, marker, p) && tail(text, p + |marker|) == r
    ensures (forall p: nat :: !OccursAt(text, marker, p)) ==> r.None?
  {
    MatchFromSound(text, marker, tail, 0);
    MatchFrom(text, marker, tail, 0)
  }

  /** The search behind `FirstMatch`, resumed at index `from`. */
  function MatchFrom<T>(text: string, marker: string, tail: (string, nat) -> Option<T>, from: nat): Option<T>
    decreases |text| - from
  {
    match IndexOf(text, marker, from)
    case None => None
    case Some(p) =>
      var m := tail(text, p + |marker|);
      if m.Some? then m else MatchFrom(text, marker, tail, p + 1)
  }

  /** A search from `from` only returns what `tail` gives at an occurrence at or after `from`. */
  lemma {:induction false} MatchFromSound<T>(text: string, marker: string, tail: (string, nat) -> Option<T>, from: nat)
    ensures MatchFrom(text, marker, tail, from).Some? ==>
      exists p :: from <= p && OccursAt(text, marker, p) && tail(text, p + |marker|) == MatchFrom(text, marker, tail, from)
    ensures (forall p :: from <= p ==> !OccursAt(text, marker, p)) ==> MatchFrom(text, marker, tail, from).None?
    decreases |text| - from
  {
    match IndexOf(text, marker, from)
    case None =>
    case Some(q) =>
      if tail(text, q + |marker|).None? {
        MatchFromSound(text, marker, tail, q + 1);
      }
  }

  /**
   * The match is decided at the leftmost occurrence of `marker` after which
   * `tail` matches; earlier occurrences whose tail fails are skipped.
   */
  lemma FirstMatchAt<T>(text: string, marker: string, tail: (string, nat) -> Option<T>, p: nat)
    requires OccursAt(text, marker, p)
    requires forall k :: 0 <= k < p && OccursAt(text, marker, k) ==> tail(text, k + |marker|).None?
    requires tail(text, p + |marker|).Some?
    ensures FirstMatch(text, marker, tail) == tail(text, p + |marker|)
  {
    MatchFromAt(text, marker, tail, 0, p);
  }

  lemma {:induction false} MatchFromAt<T>(text: string, marker: string, tail: (string, nat) -> Option<T>, from: nat, p: nat)
    requires from <= p && OccursAt(text, marker, p)
    requires forall k :: from <= k < p && OccursAt(text, marker, k) ==> tail(text, k + |marker|).None?
    requires tail(text, p + |marker|).Some?
    ensures MatchFrom(text, marker, tail, from) == tail(text, p + |marker|)
    decreases p - from
  {
    var q := MatchFromStep(text, marker, tail, from, p);
    if q < p {
      MatchFromAt(text, marker, tail, q + 1, p);
    }
  }

  /**
   * One step of the search: the next occurrence `q` is at most `p`; it decides
   * the search when it is `p`, and passes it on to `q + 1` otherwise.
   */
  lemma MatchFromStep<T>(text: string, marker: string, tail: (string, nat) -> Option<T>, from: nat, p: nat)
    returns (q: nat)
    requires from <= p && OccursAt(text, marker, p)
    requires forall k :: from <= k < p && OccursAt(text, marker, k) ==> tail(text, k + |marker|).None?
    requires tail(text, p + |marker|).Some?
    ensures from <= q <= p
    ensures q == p ==> MatchFrom(text, marker, tail, from) == tail(text, p + |marker|)
    ensures q < p ==> MatchFrom(text, marker, tail, from) == MatchFrom(text, marker, tail, q + 1)
  {
    IndexOfAtMost(text, marker, from, p);
    q := IndexOf(text, marker, from).value;
    if q < p {
      MatchFromSkip(text, marker, tail, from, q);
    } else {
      MatchFromHere(text, marker, tail, from, q);
    }
  }

  /** An occurrence whose tail fails passes the search on to the next position. */
  lemma MatchFromSkip<T>(text: string, marker: string, tail: (string, nat) -> Option<T>, from: nat, q: nat)
    requires IndexOf(text, marker, from) == Some(q) && tail(text, q + |marker|).None?
    ensures MatchFrom(text, marker, tail, from) == MatchFrom(text, marker, tail, q + 1)
  {
  }

  /** An occurrence whose tail matches decides the search. */
  lemma MatchFromHere<T>(text: string, marker: string, tail: (string, nat) -> Option<T>, from: nat, q: nat)
    requires IndexOf(text, marker, from) == Some(q) && tail(text, q + |marker|).Some?
    ensures MatchFrom(text, marker, tail, from) == tail(text, q + |marker|)
  {
  }

  /** A search from `from` stops at or before any occurrence at or after `from`. */
  lemma IndexOfAtMost(text: string, marker: string, from: nat, p: nat)
    requires from <= p && OccursAt(text, marker, p)
    ensures IndexOf(text, marker, from).Some? && IndexOf(text, marker, from).value <= p
  {
  }

  /** Largest `k` in `[s, q)` whose character is not a line terminator. */
  function LastNonTerminator(t: string, s: nat, q: nat): (r: Option<nat>)
    requires s <= q <= |t|
    ensures r.Some? ==> s <= r.value < q && !IsLineTerminator(t[r.value])
    ensures r.Some? ==> forall k :: r.value < k < q ==> IsLineTerminator(t[k])
    ensures r.None? ==> forall k :: s <= k < q ==> IsLineTerminator(t[k])
    decreases q - s
  {
    if q == s then None
    else if !IsLineTerminator(t[q - 1]) then Some(q - 1)
    else LastNonTerminator(t, s, q - 1)
  }

  /**
   * The tail `\s*(.+)` at position `s`. The greedy `\s*` takes the whole
   * whitespace run; when that run reaches the end of the text it gives back
   * characters until `.+` can take one that is not a line terminator.
   */
  function LineAt(t: string, s: nat): (r: Option<string>)
    ensures r.Some? ==> forall k :: 0 <= k < |r.value| ==> !IsLineTerminator(r.value[k])
  {
    if s > |t| then None
    else
      var q := SkipWs(t, s);
      if q < |t| then Some(t[q..LineEnd(t, q)])
      else
        match LastNonTerminator(t, s, q)
        case None => None
        case Some(k) => Some(t[k..LineEnd(t, k)])
  }

  /** `text.match(/marker\s*(.+)/)?.[1]?.trim()`. */
  function Field(text: string, marker: string): Option<string> {
    match FirstMatch(text, marker, LineAt)
    case None => None
    case Some(c) => Some(Trim(c))
  }

  /** The tail `\s*(.+?)\s*#(\d+)` at position `s`: the character's name and id. */
  function CharacterAt(t: string, s: nat): (r: Option<(string, string)>)
    ensures r.Some? ==> AllDigits(r.value.1) && |r.value.1| >= 1
  {
    if s > |t| then None else TryLeadingWs(t, s, SkipWs(t, s) - s)
  }

  /** The greedy `\s*` before the name, tried with `w` characters, then fewer. */
  function TryLeadingWs(t: string, s: nat, w: nat): (r: Option<(string, string)>)
    requires s + w <= |t|
    ensures r.Some? ==> AllDigits(r.value.1) && |r.value.1| >= 1
    decreases w
  {
    match LazyName(t, s + w, 1)
    case Some(m) => Some(m)
    case None => if w == 0 then None else TryLeadingWs(t, s, w - 1)
  }

  /** The lazy `(.+?)` starting at `a`, tried with `n` characters, then more. */
  function LazyName(t: string, a: nat, n: nat): (r: Option<(string, string)>)
    requires a <= |t| && n >= 1
    ensures r.Some? ==> AllDigits(r.value.1) && |r.value.1| >= 1
    decreases |t| - (a + n)
  {
    if a + n > |t| then None
    else if IsLineTerminator(t[a + n - 1]) then None
    else
      var f := SkipWs(t, a + n);
      if f + 1 < |t| && t[f] == '#' && IsDigit(t[f + 1]) then
        Some((t[a..a + n], t[f + 1..RunEnd(t, f + 1, IsDigit)]))
      else LazyName(t, a, n + 1)
  }

  function CharacterMatch(text: string): (r: Option<(string, string)>)
    ensures r.Some? ==> AllDigits(r.value.1)
  {
    FirstMatch(text, CharacterLabel, CharacterAt)
  }

  /**
   * The tail `\s*\$?([\d\s]+)` at position `s`. When neither an optional
   * dollar sign nor a digit follows the whitespace, the matcher backtracks
   * into the whitespace and captures a single whitespace character.
   */
  function PriceAt(t: string, s: nat): (r: Option<string>)
    ensures r.Some? ==> |r.value| >= 1 && forall k :: 0 <= k < |r.value| ==> IsDigitOrWhitespace(r.value[k])
  {
    if s > |t| then None
    else
      var c := SkipWs(t, s);
      if c + 1 < |t| && t[c] == '$' && IsDigitOrWhitespace(t[c + 1]) then
        Some(t[c + 1..RunEnd(t, c + 1, IsDigitOrWhitespace)])
      else if c < |t| && IsDigit(t[c]) then
        Some(t[c..RunEnd(t, c, IsDigitOrWhitespace)])
      else if c > s then
        Some(t[c - 1..c])
      else None
  }

  function PriceMatch(text: string): (r: Option<string>)
    ensures r.Some? ==> forall k :: 0 <= k < |r.value| ==> IsDigitOrWhitespace(r.value[k])
  {
    FirstMatch(text, PriceLabel, PriceAt)
  }

  /** The first unit of `units` that occurs at `e`. */
  function FirstUnit(t: string, e: nat, units: seq<string>): (r: Option<string>)
    ensures r.Some? ==> r.value in units && OccursAt(t, r.value, e)
    ensures r.None? ==> forall u :: u in units ==> !OccursAt(t, u, e)
  {
    if units == [] then None
    else if OccursAt(t, units[0], e) then Some(units[0])
    else FirstUnit(t, e, units[1..])
  }

  /** The tail `\s*(\d+)\s*(часов|часа|час|дней|дня|день)` at position `s`. */
  function DurationAt(t: string, s: nat): (r: Option<(string, string)>)
    ensures r.Some? ==> |r.value.0| >= 1 && AllDigits(r.value.0) && r.value.1 in DurationUnits
  {
    if s > |t| then None
    else
      var c := SkipWs(t, s);
      if c < |t| && IsDigit(t[c]) then
        var d := RunEnd(t, c, IsDigit);
        match FirstUnit(t, SkipWs(t, d), DurationUnits)
        case Some(u) => Some((t[c..d], u))
        case None => None
      else None
  }

  function DurationMatch(text: string): (r: Option<(string, string)>)
    ensures r.Some? ==> AllDigits(r.value.0) && r.value.1 in DurationUnits
  {
    FirstMatch(text, DurationLabel, DurationAt)
  }

  /** Hours for a duration value and unit: a unit starting with "д" counts days. */
  function UnitHours(value: nat, unit: string): nat {
    if StartsWith(unit, "д") then value * 24 else value
  }

  function DurationHoursOf(text: string): Option<nat> {
    match DurationMatch(text)
    case None => None
    case Some(m) => Some(UnitHours(DigitsValue(m.0), m.1))
  }

  /** JavaScript truthiness of an optional string. */
  predicate Truthy(s: Option<string>) {
    s.Some? && s.value != []
  }

  /** What a trigger message yields before the price is converted to a number. */
  datatype Fields = Fields(
    server: string,
    character: Option<(string, string)>,
    vehicle: string,
    plate: string,
    priceText: string,
    duration: (string, string),
    renter: Option<string>)

  predicate WellFormed(f: Fields) {
    && (forall k :: 0 <= k < |f.priceText| ==> IsDigitOrWhitespace(f.priceText[k]))
    && AllDigits(f.duration.0)
  }

  /** The matching steps of `parseRentalMessage`, up to its null check. */
  function ParseFields(text: string): (r: Option<Fields>)
    ensures r.Some? <==>
      && IsRentalMessage(text)
      && Truthy(Field(text, ServerLabel)) && Truthy(Field(text, VehicleLabel))
      && Truthy(Field(text, PlateLabel))
      && PriceMatch(text).Some? && DurationMatch(text).Some?
    ensures r.Some? ==> WellFormed(r.value)
  {
    if !IsRentalMessage(text) then None
    else
      var server := Field(text, ServerLabel);
      var vehicle := Field(text, VehicleLabel);
      var plate := Field(text, PlateLabel);
      var price := PriceMatch(text);
      var duration := DurationMatch(text);
      if !Truthy(server) || !Truthy(vehicle) || !Truthy(plate) || price.None? || duration.None? then None
      else
        Some(Fields(server.value, CharacterMatch(text), vehicle.value, plate.value,
                    price.value, duration.value, Field(text, RenterLabel)))
  }

  function PriceDigits(f: Fields): (d: string)
    requires WellFormed(f)
    ensures AllDigits(d)
  {
    RemoveWhitespace(f.priceText)
  }

  function ToParsed(f: Fields, price: nat): ParsedRental
    requires WellFormed(f)
  {
    ParsedRental(
      f.server,
      if f.character.Some? then Trim(f.character.value.0) else "",
      if f.character.Some? then Trim(f.character.value.1) else "",
      f.vehicle,
      f.plate,
      price,
      UnitHours(DigitsValue(f.duration.0), f.duration.1),
      if f.renter.Some? then f.renter.value else "")
  }

  /**
   * `parseRentalMessage`, with the price check the parser evidently intends:
   * a price line whose capture holds no digit yields no result.
   */
  function ParseRentalMessage(text: string): (r: Option<ParsedRental>)
    ensures !IsRentalMessage(text) ==> r.None?
    ensures r.Some? <==> ParseFields(text).Some? && PriceDigits(ParseFields(text).value) != []
    ensures r.Some? ==> r.value.server != [] && r.value.vehicleName != [] && r.value.plateNumber != []
    ensures r.Some? ==> (Some(r.value.server) == Field(text, ServerLabel)
      && Some(r.value.vehicleName) == Field(text, VehicleLabel)
      && Some(r.value.plateNumber) == Field(text, PlateLabel))
    ensures r.Some? ==> DurationHoursOf(text) == Some(r.value.durationHours)
    ensures r.Some? ==> (&& PriceMatch(text).Some?
                         && RemoveWhitespace(PriceMatch(text).value) != []
                         && r.value.price == DigitsValue(RemoveWhitespace(PriceMatch(text).value)))
    ensures r.Some? && CharacterMatch(text).Some? ==>
      (&& r.value.characterName == Trim(CharacterMatch(text).value.0)
       && r.value.characterId == Trim(CharacterMatch(text).value.1))
    ensures r.Some? && CharacterMatch(text).None? ==> r.value.characterName == [] && r.value.characterId == []
    ensures r.Some? && Field(text, RenterLabel).Some? ==> r.value.renterName == Field(text, RenterLabel).value
    ensures r.Some? && Field(text, RenterLabel).None? ==> r.value.renterName == []
  {
    match ParseFields(text)
    case None => None
    case Some(f) =>
      var digits := PriceDigits(f);
      if digits == [] then None else Some(ToParsed(f, DigitsValue(digits)))
  }

  // ---------------------------------------------------------------------
  // What each field pattern captures on a well-formed line of the template.

  /** A line "marker  value" yields the trimmed value. */
  lemma FieldOfLine(t: string, marker: string, p: nat, ws: string, v: string)
    requires OccursAt(t, marker, p) && forall k :: 0 <= k < p ==> !OccursAt(t, marker, k)
    requires OccursAt(t, ws + v, p + |marker|)
    requires AllWhitespace(ws) && v != [] && NotWhitespace(v[0])
    requires forall k :: 0 <= k < |v| ==> NotLineTerminator(v[k])
    requires var e := p + |marker| + |ws| + |v|; e < |t| ==> IsLineTerminator(t[e])
    ensures Field(t, marker) == Some(Trim(v))
  {
    LineAtOfLine(t, p + |marker|, ws, v);
    FirstMatchAt(t, marker, LineAt, p);
  }

  /** The line tail at `s` of "ws v" followed by a line end is `v`. */
  lemma LineAtOfLine(t: string, s: nat, ws: string, v: string)
    requires OccursAt(t, ws + v, s)
    requires AllWhitespace(ws) && v != [] && NotWhitespace(v[0])
    requires forall k :: 0 <= k < |v| ==> NotLineTerminator(v[k])
    requires var e := s + |ws| + |v|; e < |t| ==> IsLineTerminator(t[e])
    ensures LineAt(t, s) == Some(v)
  {
    var q := s + |ws|;
    var e := q + |v|;
    OccursConcat(t, ws, v, s);
    OccursEvery(t, ws, s, IsWhitespace);
    OccursChar(t, v, q, 0);
    RunEndIs(t, s, q, IsWhitespace);
    OccursEvery(t, v, q, NotLineTerminator);
    RunEndIs(t, q, e, NotLineTerminator);
  }

  /** Every unit of the alternation starts with "ч" (hours) or "д" (days). */
  lemma UnitKind(u: string)
    requires u in DurationUnits
    ensures |u| >= 1 && (u[0] == 'ч' || u[0] == 'д')
    ensures u in DayUnits <==> u[0] == 'д'
    ensures StartsWith(u, "д") <==> u[0] == 'д'
  {
  }

  /** The duration tail on "  N  unit" captures N and a unit of the same kind. */
  lemma DurationTail(t: string, s: nat, ws1: string, digits: string, ws2: string, unit: string)
    requires OccursAt(t, ws1 + digits + ws2 + unit, s)
    requires AllWhitespace(ws1) && AllWhitespace(ws2) && digits != [] && AllDigits(digits)
    requires unit in DurationUnits
    ensures DurationAt(t, s).Some? && DurationAt(t, s).value.0 == digits
    ensures |unit| >= 1 && |DurationAt(t, s).value.1| >= 1 && DurationAt(t, s).value.1[0] == unit[0]
  {
    OccursPieces(t, ws1, digits, ws2, unit, s);
    var e := s + |ws1| + |digits| + |ws2|;
    UnitStart(t, e, unit);
    DurationPositions(t, s, ws1, digits, ws2);
    DurationAtIs(t, s, s + |ws1|, s + |ws1| + |digits|, e, digits, unit);
  }

  /** A unit starts with a letter: neither whitespace nor a digit. */
  lemma UnitStart(t: string, e: nat, unit: string)
    requires unit in DurationUnits && OccursAt(t, unit, e)
    ensures e < |t| && NotWhitespace(t[e]) && !IsDigit(t[e])
  {
    UnitKind(unit);
    OccursChar(t, unit, e, 0);
  }

  /** Where the whitespace, the number and the whitespace before the unit end. */
  lemma DurationPositions(t: string, s: nat, ws1: string, digits: string, ws2: string)
    requires OccursAt(t, ws1, s) && OccursAt(t, digits, s + |ws1|) && OccursAt(t, ws2, s + |ws1| + |digits|)
    requires AllWhitespace(ws1) && AllWhitespace(ws2) && digits != [] && AllDigits(digits)
    requires var e := s + |ws1| + |digits| + |ws2|; e < |t| && NotWhitespace(t[e]) && !IsDigit(t[e])
    ensures DurationLayout(t, s, s + |ws1|, s + |ws1| + |digits|, s + |ws1| + |digits| + |ws2|, digits)
  {
    var c := s + |ws1|;
    var d := c + |digits|;
    var e := d + |ws2|;
    assert IsDigit(t[c]) && NotWhitespace(t[c]) by {
      OccursChar(t, digits, c, 0);
    }
    assert !IsDigit(t[d]) by {
      if d < e {
        OccursChar(t, ws2, d, 0);
      }
    }
    SkipWsOver(t, s, ws1);
    RunOfPiece(t, c, digits, IsDigit);
    SkipWsOver(t, d, ws2);
  }

  /**
   * After `s`: whitespace up to `c`, the digits up to `d`, whitespace up to `e`;
   * the digits are `digits`.
   */
  predicate DurationLayout(t: string, s: nat, c: nat, d: nat, e: nat, digits: string) {
    && s <= |t| && SkipWs(t, s) == c && c < |t| && IsDigit(t[c])
    && RunEnd(t, c, IsDigit) == d && SkipWs(t, d) == e && t[c..d] == digits
  }

  /** The duration tail read off the positions its pieces end at. */
  lemma DurationAtIs(t: string, s: nat, c: nat, d: nat, e: nat, digits: string, unit: string)
    requires DurationLayout(t, s, c, d, e, digits)
    requires unit in DurationUnits && OccursAt(t, unit, e)
    ensures DurationAt(t, s).Some? && DurationAt(t, s).value.0 == digits
    ensures |unit| >= 1 && |DurationAt(t, s).value.1| >= 1 && DurationAt(t, s).value.1[0] == unit[0]
  {
    UnitAt(t, e, unit);
  }

  /** Where a unit occurs, the alternation matches a unit with the same first letter. */
  lemma UnitAt(t: string, e: nat, unit: string)
    requires unit in DurationUnits && OccursAt(t, unit, e)
    ensures FirstUnit(t, e, DurationUnits).Some?
    ensures |unit| >= 1 && |FirstUnit(t, e, DurationUnits).value| >= 1
    ensures FirstUnit(t, e, DurationUnits).value[0] == unit[0]
  {
    UnitKind(unit);
    OccursChar(t, unit, e, 0);
    var r := FirstUnit(t, e, DurationUnits);
    UnitKind(r.value);
    OccursChar(t, r.value, e, 0);
  }

  /** A line "Длительность: N unit" yields N hours, or 24 N when the unit counts days. */
  lemma DurationOfTemplate(t: string, p: nat, ws1: string, digits: string, ws2: string, unit: string)
    requires OccursAt(t, DurationLabel, p) && forall k :: 0 <= k < p ==> !OccursAt(t, DurationLabel, k)
    requires OccursAt(t, ws1 + digits + ws2 + unit, p + |DurationLabel|)
    requires AllWhitespace(ws1) && AllWhitespace(ws2) && digits != [] && AllDigits(digits)
    requires unit in DurationUnits
    ensures DurationHoursOf(t) == Some(if unit in DayUnits then DigitsValue(digits) * 24 else DigitsValue(digits))
  {
    DurationTail(t, p + |DurationLabel|, ws1, digits, ws2, unit);
    var m := DurationAt(t, p + |DurationLabel|).value;
    FirstMatchAt(t, DurationLabel, DurationAt, p);
    UnitKind(m.1);
    UnitKind(unit);
  }

  /** The line "Длительность:" + "  N  unit" at the start of a text. */
  lemma DurationOfLabelLine(t: string, ws1: string, digits: string, ws2: string, unit: string)
    requires t == DurationLabel + (ws1 + digits + ws2 + unit)
    requires AllWhitespace(ws1) && AllWhitespace(ws2) && digits != [] && AllDigits(digits)
    requires unit in DurationUnits
    ensures DurationHoursOf(t)
      == Some(if unit in DayUnits then DigitsValue(digits) * 24 else DigitsValue(digits))
  {
    assert t[0..|DurationLabel|] == DurationLabel;
    assert t[|DurationLabel|..|t|] == ws1 + digits + ws2 + unit;
    DurationOfTemplate(t, 0, ws1, digits, ws2, unit);
  }

  /** A two-digit numeral is worth ten times its first digit plus its second. */
  lemma TwoDigitsValue(s: string)
    requires |s| == 2 && AllDigits(s)
    ensures DigitsValue(s) == DigitValue(s[0]) * 10 + DigitValue(s[1])
  {
    var first := s[..1];
    assert first[..0] == [] && first[0] == s[0];
    assert DigitsValue(first) == DigitValue(s[0]);
  }

  /** "Длительность: 2 дня" is 48 hours. */
  lemma DurationExampleDays(t: string)
    requires t == DurationLabel + " 2 дня"
    ensures DurationHoursOf(t) == Some(48)
  {
    assert "дня" == DurationUnits[4] == DayUnits[1];
    assert AllWhitespace(" ") && AllDigits("2");
    assert " " + "2" + " " + "дня" == " 2 дня";
    DurationOfLabelLine(t, " ", "2", " ", "дня");
    assert DigitsValue("2") == 2 by {
      assert "2"[..0] == "";
    }
  }

  /** "Длительность: 24 часа" is 24 hours. */
  lemma DurationExampleHours(t: string)
    requires t == DurationLabel + " 24 часа"
    ensures DurationHoursOf(t) == Some(24)
  {
    assert "часа" == DurationUnits[1];
    UnitKind("часа");
    assert AllWhitespace(" ") && AllDigits("24") by {}
    assert " " + "24" + " " + "часа" == " 24 часа" by {}
    DurationOfLabelLine(t, " ", "24", " ", "часа");
    TwoDigitsValue("24");
  }

  /** The price tail on "  $1 500" captures the run after the optional dollar sign. */
  lemma PriceTail(t: string, s: nat, ws: string, dollar: string, run: string)
    requires OccursAt(t, ws + dollar + run, s)
    requires AllWhitespace(ws) && (dollar == [] || dollar == "$")
    requires run != [] && IsDigit(run[0]) && forall k :: 0 <= k < |run| ==> IsDigitOrWhitespace(run[k])
    requires var e := s + |ws| + |dollar| + |run|; e < |t| ==> !IsDigitOrWhitespace(t[e])
    ensures PriceAt(t, s) == Some(run)
  {
    var c := s + |ws|;
    var b := c + |dollar|;
    OccursConcat(t, ws + dollar, run, s);
    OccursConcat(t, ws, dollar, s);
    OccursChar(t, run, b, 0);
    if dollar == "$" {
      OccursChar(t, dollar, c, 0);
    }
    SkipWsOver(t, s, ws);
    RunOfPiece(t, b, run, IsDigitOrWhitespace);
    PriceAtRun(t, s, c, b, run);
  }

  /** The price tail when the run after the whitespace (and the dollar sign, if any) is known. */
  lemma PriceAtRun(t: string, s: nat, c: nat, b: nat, run: string)
    requires s <= |t| && SkipWs(t, s) == c && b < |t| && IsDigit(t[b]) && OccursAt(t, run, b)
    requires b == c || (b == c + 1 && t[c] == '$')
    requires RunEnd(t, b, IsDigitOrWhitespace) == b + |run|
    ensures PriceAt(t, s) == Some(run)
  {
  }

  /** A line "Цена: $1 500" captures the digit-and-space run after the optional dollar sign. */
  lemma PriceOfTemplate(t: string, p: nat, ws: string, dollar: string, run: string)
    requires OccursAt(t, PriceLabel, p) && forall k :: 0 <= k < p ==> !OccursAt(t, PriceLabel, k)
    requires OccursAt(t, ws + dollar + run, p + |PriceLabel|)
    requires AllWhitespace(ws) && (dollar == [] || dollar == "$")
    requires run != [] && IsDigit(run[0]) && forall k :: 0 <= k < |run| ==> IsDigitOrWhitespace(run[k])
    requires var e := p + |PriceLabel| + |ws| + |dollar| + |run|; e < |t| ==> !IsDigitOrWhitespace(t[e])
    ensures PriceMatch(t) == Some(run)
  {
    PriceTail(t, p + |PriceLabel|, ws, dollar, run);
    FirstMatchAt(t, PriceLabel, PriceAt, p);
  }

  /** "Цена: $1 500" captures "1 500". */
  lemma PriceExample()
    ensures PriceMatch(PriceLabel + " $1 500") == Some("1 500")
  {
    var t := PriceLabel + " $1 500";
    assert t[0..|PriceLabel|] == PriceLabel;
    assert t[|PriceLabel|..|t|] == " " + "$" + "1 500";
    assert AllWhitespace(" ");
    assert forall k :: 0 <= k < 5 ==> IsDigitOrWhitespace("1 500"[k]);
    PriceOfTemplate(t, 0, " ", "$", "1 500");
  }

  /** The capture "1 500" is the price 1500. */
  lemma PriceValueExample()
    ensures RemoveWhitespace("1 500") == "1500" && DigitsValue("1500") == 1500
  {
    assert RemoveWhitespace("1 500") == "1500" by {
      assert "1 500"[1..] == " 500";
      assert " 500"[1..] == "500";
      assert "500"[1..] == "00";
      assert "00"[1..] == "0";
      assert "0"[1..] == "";
    }
    assert DigitsValue("1500") == 1500 by {
      assert "1500"[..3] == "150";
      assert "150"[..2] == "15";
      assert "15"[..1] == "1";
      assert "1"[..0] == "";
    }
  }

  /** The pieces of a character line "name  #id" after the leading whitespace. */
  predicate NameLine(t: string, a: nat, name: string, ws: string, id: string) {
    && OccursAt(t, name + ws + "#" + id, a)
    && name != [] && NotWhitespace(name[|name| - 1])
    && (forall k :: 0 <= k < |name| ==> NotLineTerminator(name[k]) && name[k] != '#')
    && AllWhitespace(ws) && id != [] && AllDigits(id)
    && (a + |name| + |ws| + 1 + |id| < |t| ==> !IsDigit(t[a + |name| + |ws| + 1 + |id|]))
  }

  /** One step of the lazy group: a line character is taken and no "#digit" follows the whitespace after it. */
  lemma LazyNameMore(t: string, a: nat, n: nat)
    requires a + n <= |t| && n >= 1 && !IsLineTerminator(t[a + n - 1])
    requires var f := SkipWs(t, a + n); !(f + 1 < |t| && t[f] == '#' && IsDigit(t[f + 1]))
    ensures LazyName(t, a, n) == LazyName(t, a, n + 1)
  {
  }

  /** The lazy group stops where the whitespace after it is followed by "#" and a digit. */
  lemma LazyNameStops(t: string, a: nat, n: nat, f: nat, name: string, id: string)
    requires a + n <= |t| && n >= 1 && !IsLineTerminator(t[a + n - 1])
    requires SkipWs(t, a + n) == f && f + 1 < |t| && t[f] == '#' && IsDigit(t[f + 1])
    requires t[a..a + n] == name && RunEnd(t, f + 1, IsDigit) == f + 1 + |id| && t[f + 1..f + 1 + |id|] == id
    ensures LazyName(t, a, n) == Some((name, id))
  {
  }

  /** Inside the name the lazy group has to take one more character. */
  lemma LazyNameStep(t: string, a: nat, n: nat, name: string, ws: string, id: string)
    requires NameLine(t, a, name, ws, id) && 1 <= n < |name|
    ensures LazyName(t, a, n) == LazyName(t, a, n + 1)
  {
    OccursPieces(t, name, ws, "#", id, a);
    OccursChar(t, name, a, n - 1);
    OccursChar(t, name, a, |name| - 1);
    var f := SkipWs(t, a + n);
    assert f <= a + |name| - 1;
    OccursChar(t, name, a, f - a);
    LazyNameMore(t, a, n);
  }

  /** With the whole name taken, the whitespace, "#" and the id follow. */
  lemma LazyNameEnd(t: string, a: nat, name: string, ws: string, id: string)
    requires NameLine(t, a, name, ws, id)
    ensures LazyName(t, a, |name|) == Some((name, id))
  {
    var h := a + |name| + |ws|;
    NameLineLayout(t, a, name, ws, id, h);
    LazyNameStops(t, a, |name|, h, name, id);
  }

  /** Where the pieces of a character line sit in the text, with `h` the position of "#". */
  lemma NameLineLayout(t: string, a: nat, name: string, ws: string, id: string, h: nat)
    requires NameLine(t, a, name, ws, id) && h == a + |name| + |ws|
    ensures h + 1 < |t| && !IsLineTerminator(t[a + |name| - 1])
    ensures SkipWs(t, a + |name|) == h && t[h] == '#' && IsDigit(t[h + 1])
    ensures t[a..a + |name|] == name
    ensures RunEnd(t, h + 1, IsDigit) == h + 1 + |id| && t[h + 1..h + 1 + |id|] == id
  {
    OccursPieces(t, name, ws, "#", id, a);
    OccursChar(t, name, a, |name| - 1);
    OccursChar(t, "#", h, 0);
    SkipWsOver(t, a + |name|, ws);
    OccursChar(t, id, h + 1, 0);
    RunOfPiece(t, h + 1, id, IsDigit);
  }

  /** Starting from any prefix of the name, the lazy group settles on the whole name. */
  lemma {:induction false} LazyNameTakesWholeName(t: string, a: nat, n: nat, name: string, ws: string, id: string)
    requires NameLine(t, a, name, ws, id) && 1 <= n <= |name|
    ensures LazyName(t, a, n) == Some((name, id))
    decreases |name| - n
  {
    if n < |name| {
      LazyNameStep(t, a, n, name, ws, id);
      LazyNameTakesWholeName(t, a, n + 1, name, ws, id);
    } else {
      LazyNameEnd(t, a, name, ws, id);
    }
  }

  /** A line "Персонаж: Name #123" yields the name and the id. */
  lemma CharacterOfTemplate(t: string, p: nat, ws1: string, name: string, ws2: string, id: string)
    requires OccursAt(t, CharacterLabel, p) && forall k :: 0 <= k < p ==> !OccursAt(t, CharacterLabel, k)
    requires OccursAt(t, ws1 + (name + ws2 + "#" + id), p + |CharacterLabel|)
    requires AllWhitespace(ws1) && AllWhitespace(ws2)
    requires name != [] && NotWhitespace(name[0]) && NotWhitespace(name[|name| - 1])
    requires forall k :: 0 <= k < |name| ==> NotLineTerminator(name[k]) && name[k] != '#'
    requires id != [] && AllDigits(id)
    requires var e := p + |CharacterLabel| + |ws1| + |name| + |ws2| + 1 + |id|; e < |t| ==> !IsDigit(t[e])
    ensures CharacterMatch(t) == Some((name, id))
  {
    CharacterAtTemplate(t, p + |CharacterLabel|, ws1, name, ws2, id);
    FirstMatchAt(t, CharacterLabel, CharacterAt, p);
  }

  /** The tail of a character line after the label: leading whitespace, the name, whitespace, "#" and the id. */
  lemma CharacterAtTemplate(t: string, s: nat, ws1: string, name: string, ws2: string, id: string)
    requires OccursAt(t, ws1 + (name + ws2 + "#" + id), s)
    requires AllWhitespace(ws1) && AllWhitespace(ws2)
    requires name != [] && NotWhitespace(name[0]) && NotWhitespace(name[|name| - 1])
    requires forall k :: 0 <= k < |name| ==> NotLineTerminator(name[k]) && name[k] != '#'
    requires id != [] && AllDigits(id)
    requires var e := s + |ws1| + |name| + |ws2| + 1 + |id|; e < |t| ==> !IsDigit(t[e])
    ensures CharacterAt(t, s) == Some((name, id))
  {
    var rest := name + ws2 + "#" + id;
    var a := s + |ws1|;
    OccursConcat(t, ws1, rest, s);
    OccursEvery(t, ws1, s, IsWhitespace);
    OccursChar(t, rest, a, 0);
    RunEndIs(t, s, a, IsWhitespace);
    assert NameLine(t, a, name, ws2, id);
    LazyNameTakesWholeName(t, a, 1, name, ws2, id);
  }

  // ---------------------------------------------------------------------
  // The parser as written: a price capture without digits reaches
  // `parseInt("")`, which is NaN, and the record is still returned.

  datatype Price = Number(n: nat) | NaN

  datatype ParsedRentalAsWritten = ParsedRentalAsWritten(rental: ParsedRental, price: Price)

  function ParseRentalMessageAsWritten(text: string): (r: Option<ParsedRentalAsWritten>)
    ensures r.Some? <==> ParseFields(text).Some?
  {
    match ParseFields(text)
    case None => None
    case Some(f) =>
      var digits := PriceDigits(f);
      var price := if digits == [] then NaN else Number(DigitsValue(digits));
      Some(ParsedRentalAsWritten(ToParsed(f, if digits == [] then 0 else DigitsValue(digits)), price))
  }

  /** The two parsers agree except where the price line holds no digit. */
  lemma AsWrittenDiffersOnlyOnNaN(text: string)
    ensures ParseRentalMessage(text).Some? ==>
      ParseRentalMessageAsWritten(text) == Some(ParsedRentalAsWritten(
        ParseRentalMessage(text).value, Number(ParseRentalMessage(text).value.price)))
    ensures ParseRentalMessage(text).None? && ParseRentalMessageAsWritten(text).Some? ==>
      ParseRentalMessageAsWritten(text).value.price.NaN?
  {}

  /** "Цена: договорная" (a price line with words instead of digits) is matched. */
  lemma PriceWithoutDigitsMatches(t: string, pre: string, post: string)
    requires t == pre + (PriceLabel + " договорная") + post
    requires forall k :: 0 <= k < |pre| ==> !OccursAt(t, PriceLabel, k)
    ensures PriceMatch(t) == Some(" ")
  {
    var p := |pre|;
    var w := " договорная";
    assert OccursAt(t, PriceLabel + w, p) by {
      assert t[p..p + |PriceLabel + w|] == PriceLabel + w;
    }
    OccursConcat(t, PriceLabel, w, p);
    var s := p + |PriceLabel|;
    OccursChar(t, w, s, 0);
    OccursChar(t, w, s, 1);
    assert SkipWs(t, s) == s + 1 by {
      assert RunEnd(t, s + 1, IsWhitespace) == s + 1;
    }
    assert t[s..s + 1] == " ";
    assert PriceAt(t, s) == Some(" ");
    FirstMatchAt(t, PriceLabel, PriceAt, p);
  }

  /** Hence such a message is a rental with a NaN price as written, and no rental once corrected. */
  lemma NaNPriceAccepted(text: string)
    requires ParseFields(text).Some? && PriceMatch(text) == Some(" ")
    ensures ParseRentalMessageAsWritten(text).Some? && ParseRentalMessageAsWritten(text).value.price == NaN
    ensures ParseRentalMessage(text).None?
  {
    assert ParseFields(text).value.priceText == " ";
    assert RemoveWhitespace(" ") == [];
  }
}
