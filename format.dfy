/**
 * Display helpers of the web dashboard (packages/web/src/utils/format.ts):
 * rental durations as days and hours, and the image URL of a vehicle slug.
 */
module Format {
  import opened Common
  import opened Text

  const HoursPerDay: nat := 24

  /** `Math.floor(hours / 24)` and `hours % 24` for a duration of at least a day. */
  function DaysAndHours(hours: int): (r: (nat, nat))
    requires hours >= HoursPerDay
    ensures r.0 >= 1 && r.1 < HoursPerDay
    ensures r.0 * HoursPerDay + r.1 == hours
  {
    (hours / HoursPerDay, hours % HoursPerDay)
  }

  /** `formatDuration`: "{days}д {rest}ч", "{days}д" when no hours remain, or "{hours}ч" under a day. */
  function FormatDuration(hours: int): string {
    if hours >= HoursPerDay then
      var (days, rest) := DaysAndHours(hours);
      if rest > 0 then NatToString(days) + "д " + NatToString(rest) + "ч" else NatToString(days) + "д"
    else IntToString(hours) + "ч"
  }

  /** The leading decimal number of `s` and the text after it, if `s` starts with a digit. */
  function ReadNumber(s: string): Option<(nat, string)> {
    var i := RunEnd(s, 0, IsDigit);
    if i == 0 then None else Some((DigitsValue(s[..i]), s[i..]))
  }

  /** Reads a text of the form `formatDuration` writes back as a number of hours. */
  function ReadDuration(s: string): Option<int> {
    match ReadNumber(s)
    case None => None
    case Some((n, tail)) =>
      if tail == "ч" then Some(n)
      else if tail == "д" then Some(n * HoursPerDay)
      else if |tail| > 2 && tail[..2] == "д " then
        match ReadNumber(tail[2..])
        case Some((m, unit)) => if unit == "ч" then Some(n * HoursPerDay + m) else None
        case None => None
      else None
  }

  /** A rendered number followed by a text that starts with a non-digit reads back as that number. */
  lemma ReadNumberOf(n: nat, tail: string)
    requires tail != [] && !IsDigit(tail[0])
    ensures ReadNumber(NatToString(n) + tail) == Some((n, tail))
  {
    var d := NatToString(n);
    var s := d + tail;
    assert s[..|d|] == d && s[|d|..] == tail;
    forall k | 0 <= k < |d| ensures IsDigit(s[k]) {
      assert s[k] == d[k];
    }
    RunEndIs(s, 0, |d|, IsDigit);
  }

  /** Every non-negative duration is read back from its rendering. */
  lemma FormatDurationReadBack(hours: nat)
    ensures ReadDuration(FormatDuration(hours)) == Some(hours)
  {
    if hours >= HoursPerDay {
      var (days, rest) := DaysAndHours(hours);
      if rest > 0 {
        ReadDaysAndHours(days, rest);
      } else {
        ReadNumberOf(days, "д");
      }
    } else {
      ReadNumberOf(hours, "ч");
    }
  }

  /** "{days}д {rest}ч" reads back as days and hours together. */
  lemma ReadDaysAndHours(days: nat, rest: nat)
    ensures ReadDuration(NatToString(days) + "д " + NatToString(rest) + "ч") == Some(days * HoursPerDay + rest)
  {
    var r := NatToString(rest);
    var tail := "д " + (r + "ч");
    var s := NatToString(days) + "д " + r + "ч";
    assert s == NatToString(days) + tail;
    ReadNumberOf(days, tail);
    assert tail[..2] == "д " && tail[2..] == r + "ч";
    ReadNumberOf(rest, "ч");
    ReadTwoParts(s, days, tail, rest);
  }

  /** `ReadDuration` on a number, "д ", a second number and "ч". */
  lemma ReadTwoParts(s: string, n: nat, tail: string, m: nat)
    requires ReadNumber(s) == Some((n, tail))
    requires |tail| > 2 && tail[..2] == "д "
    requires ReadNumber(tail[2..]) == Some((m, "ч"))
    ensures ReadDuration(s) == Some(n * HoursPerDay + m)
  {
    assert tail != "ч" && tail != "д";
  }

  /** Under a day the rendering holds no day part; from a day on it always does. */
  lemma FormatDurationUnits(hours: nat)
    ensures hours < HoursPerDay ==> 'д' !in FormatDuration(hours)
    ensures hours >= HoursPerDay ==> 'д' in FormatDuration(hours)
  {
    var s := FormatDuration(hours);
    if hours < HoursPerDay {
      assert s == NatToString(hours) + "ч";
      forall k | 0 <= k < |s| ensures s[k] != 'д' {
        if k < |NatToString(hours)| {
          assert s[k] == NatToString(hours)[k];
        }
      }
    } else {
      var (days, rest) := DaysAndHours(hours);
      assert s[|NatToString(days)|] == 'д';
    }
  }

  const CarsPrefix: string := "/cars/"
  const DefaultImageUrl: string := "/cars/default.webp"

  /** `getCarImageUrl`: a non-empty slug names its PNG under /cars/; otherwise the default picture. */
  function GetCarImageUrl(slug: Option<string>): (url: string)
    ensures StartsWith(url, CarsPrefix)
  {
    if slug.Some? && slug.value != [] then CarsPrefix + slug.value + ".png" else DefaultImageUrl
  }

  /** The slug a "/cars/{slug}.png" URL names, if it has that form. */
  function SlugOfUrl(url: string): Option<string> {
    if |url| > |CarsPrefix| + 4 && StartsWith(url, CarsPrefix) && url[|url| - 4..] == ".png" then
      Some(url[|CarsPrefix|..|url| - 4])
    else None
  }

  /** The URL of a slug gives the slug back; the default picture names no slug. */
  lemma ImageUrlReadBack(slug: Option<string>)
    ensures slug.Some? && slug.value != [] ==> SlugOfUrl(GetCarImageUrl(slug)) == slug
    ensures slug.None? || slug.value == [] ==> SlugOfUrl(GetCarImageUrl(slug)) == None
  {
    var url := GetCarImageUrl(slug);
    if slug.Some? && slug.value != [] {
      assert url[..|CarsPrefix|] == CarsPrefix;
      assert url[|url| - 4..] == ".png";
      assert url[|CarsPrefix|..|url| - 4] == slug.value;
    } else {
      assert url[|url| - 4..] == "webp";
    }
  }
}
