/** The global constants and helper functions of constants.js. */
module Constants {
  import opened Wrappers
  import opened JsNumber

  /** One entry of the outcome-symbol options: its value and its label (`caption`). */
  datatype SegnoOption = SegnoOption(value: string, caption: string)

  /** SEGNI_PARTITA: home win, draw, away win. */
  const SegniPartita: seq<SegnoOption> := [
    SegnoOption("1", "1 (Vittoria Casa)"),
    SegnoOption("X", "X (Pareggio)"),
    SegnoOption("2", "2 (Vittoria Trasferta)")
  ]

  predicate IsSegno(s: string) {
    exists i :: 0 <= i < |SegniPartita| && SegniPartita[i].value == s
  }

  lemma SegnoValues()
    ensures IsSegno("1") && IsSegno("X") && IsSegno("2")
  {
    assert SegniPartita[0].value == "1" && SegniPartita[1].value == "X" && SegniPartita[2].value == "2";
  }

  /** calcolaSegno: the outcome symbol of a scoreline. */
  function CalcolaSegno(golCasa: int, golTrasferta: int): (r: string)
    ensures IsSegno(r)
    ensures r == "1" <==> golCasa > golTrasferta
    ensures r == "2" <==> golCasa < golTrasferta
    ensures r == "X" <==> golCasa == golTrasferta
  {
    SegnoValues();
    if golCasa > golTrasferta then "1"
    else if golCasa < golTrasferta then "2"
    else "X"
  }

  /** Swapping home and away swaps '1' and '2' and keeps 'X'. */
  lemma CalcolaSegnoSwap(golCasa: int, golTrasferta: int)
    ensures CalcolaSegno(golTrasferta, golCasa) == Mirror(CalcolaSegno(golCasa, golTrasferta))
  {
  }

  /** The symbol seen from the other side. */
  function Mirror(segno: string): string {
    if segno == "1" then "2" else if segno == "2" then "1" else segno
  }

  /** A `Date` value: a time in milliseconds, or an invalid date (NaN). */
  datatype Instant = Time(ms: int) | InvalidDate

  /** `a < b` between two dates; NaN compares false. */
  predicate Before(a: Instant, b: Instant) {
    a.Time? && b.Time? && a.ms < b.ms
  }

  /** isDataPassata: the date lies strictly before the clock reading `now`. */
  predicate IsDataPassata(data: Instant, now: int) {
    Before(data, Time(now))
  }

  lemma IsDataPassataStrict(d: int, now: int)
    ensures IsDataPassata(Time(d), now) <==> d < now
    ensures !IsDataPassata(Time(now), now)
    ensures !IsDataPassata(InvalidDate, now)
  {
  }

  /** Once a date has passed it stays passed as the clock advances. */
  lemma IsDataPassataMonotone(data: Instant, now: int, later: int)
    requires now <= later && IsDataPassata(data, now)
    ensures IsDataPassata(data, later)
  {
  }

  /** The hours and remaining minutes of a duration of at least an hour. */
  function HoursAndMinutes(minuti: int): (r: (int, int))
    requires minuti >= 60
    ensures r.0 >= 1 && 0 <= r.1 < 60 && r.0 * 60 + r.1 == minuti
  {
    (minuti / 60, minuti % 60)
  }

  /**
   * formatoTempo: "<m>m" under an hour, otherwise "<h>h" on a whole hour and
   * "<h>h <m>m" in between. For `minuti >= 60` JavaScript's truncating `%`
   * and `Math.floor(minuti / 60)` agree with Dafny's `%` and `/`.
   */
  function FormatoTempo(minuti: int): string {
    if minuti < 60 then IntToString(minuti) + "m"
    else
      var (ore, min) := HoursAndMinutes(minuti);
      if min > 0 then IntToString(ore) + "h " + IntToString(min) + "m" else IntToString(ore) + "h"
  }

  lemma NoHourMark(n: int)
    ensures 'h' !in IntToString(n) && ' ' !in IntToString(n)
  {
    var s := IntToString(n);
    assert forall i :: 0 <= i < |s| ==> IsDecimalDigit(s[i]) || s[i] == '-';
  }

  /** The three shapes of formatoTempo's output. */
  lemma FormatoTempoShape(minuti: int)
    ensures minuti < 60 ==> FormatoTempo(minuti) == IntToString(minuti) + "m" && 'h' !in FormatoTempo(minuti)
    ensures minuti >= 60 ==>
      var ore, min := minuti / 60, minuti % 60;
      ore >= 1 && 0 <= min < 60 && ore * 60 + min == minuti
      && (FormatoTempo(minuti) == IntToString(ore) + "h" <==> min == 0)
      && (min != 0 ==> FormatoTempo(minuti) == IntToString(ore) + "h " + IntToString(min) + "m")
  {
    if minuti < 60 {
      NoHourMark(minuti);
    } else {
      var ore, min := minuti / 60, minuti % 60;
      var h := IntToString(ore);
      if min != 0 {
        var r := FormatoTempo(minuti);
        assert r == h + "h " + IntToString(min) + "m";
        assert |r| > |h + "h"|;
      }
    }
  }

  function IndexOf(s: string, c: char): (r: Option<nat>)
    ensures r.Some? ==> r.value < |s| && s[r.value] == c && c !in s[..r.value]
    ensures r.None? ==> c !in s
  {
    if s == [] then None
    else if s[0] == c then Some(0)
    else match IndexOf(s[1..], c)
      case None => None
      case Some(k) =>
        assert s[..k + 1] == [s[0]] + s[1..][..k];
        Some(k + 1)
  }

  /** Reads formatoTempo's output back into minutes. */
  function ParseTempo(s: string): Option<int> {
    match IndexOf(s, 'h')
    case None =>
      if s != [] && s[|s| - 1] == 'm' then ParseDecimal(s[..|s| - 1]) else None
    case Some(k) =>
      var rest := s[k + 1..];
      match ParseDecimal(s[..k])
      case None => None
      case Some(ore) =>
        if rest == [] then Some(ore * 60)
        else if |rest| >= 2 && rest[0] == ' ' && rest[|rest| - 1] == 'm' then
          match ParseDecimal(rest[1..|rest| - 1])
          case None => None
          case Some(min) => Some(ore * 60 + min)
        else None
  }

  lemma IndexOfAfter(a: string, c: char, b: string)
    requires c !in a
    ensures IndexOf(a + [c] + b, c) == Some(|a|)
  {
    var s := a + [c] + b;
    assert s[|a|] == c;
    assert forall i :: 0 <= i < |a| ==> s[i] == a[i];
    assert forall k :: |a| < k <= |s| ==> s[..k][|a|] == c;
  }

  /** formatoTempo loses nothing: its output determines the duration. */
  lemma FormatoTempoRoundTrip(minuti: int)
    ensures ParseTempo(FormatoTempo(minuti)) == Some(minuti)
  {
    if minuti < 60 {
      MinutesRoundTrip(minuti);
    } else if minuti % 60 == 0 {
      WholeHoursRoundTrip(minuti);
    } else {
      HoursMinutesRoundTrip(minuti);
    }
  }

  lemma MinutesRoundTrip(minuti: int)
    requires minuti < 60
    ensures ParseTempo(FormatoTempo(minuti)) == Some(minuti)
  {
    var s := FormatoTempo(minuti);
    NoHourMark(minuti);
    IntToStringRoundTrip(minuti);
    assert s[..|s| - 1] == IntToString(minuti);
    assert IndexOf(s, 'h') == None;
  }

  lemma WholeHoursRoundTrip(minuti: int)
    requires minuti >= 60 && minuti % 60 == 0
    ensures ParseTempo(FormatoTempo(minuti)) == Some(minuti)
  {
    var s := FormatoTempo(minuti);
    var h := IntToString(minuti / 60);
    NoHourMark(minuti / 60);
    IntToStringRoundTrip(minuti / 60);
    assert s == h + ['h'] + [];
    IndexOfAfter(h, 'h', []);
    assert s[..|h|] == h;
    assert s[|h| + 1..] == [];
  }

  lemma HoursMinutesRoundTrip(minuti: int)
    requires minuti >= 60 && minuti % 60 != 0
    ensures ParseTempo(FormatoTempo(minuti)) == Some(minuti)
  {
    var (ore, min) := HoursAndMinutes(minuti);
    assert FormatoTempo(minuti) == IntToString(ore) + "h " + IntToString(min) + "m";
    ParseHoursMinutes(ore, min);
  }

  lemma ParseHoursMinutes(ore: int, min: int)
    ensures ParseTempo(IntToString(ore) + "h " + IntToString(min) + "m") == Some(ore * 60 + min)
  {
    var h := IntToString(ore);
    var m := IntToString(min);
    var rest := " " + m + "m";
    var s := h + ['h'] + rest;
    NoHourMark(ore);
    IntToStringRoundTrip(ore);
    IntToStringRoundTrip(min);
    assert h + "h " + m + "m" == s;
    SplitAtHourMark(h, rest);
    assert rest[1..|rest| - 1] == m;
    ReadHoursMinutes(s, |h|, ore, min);
  }

  /** In `h + 'h' + rest` with no mark inside `h`, the mark is found right after `h`. */
  lemma SplitAtHourMark(h: string, rest: string)
    requires 'h' !in h
    ensures var s := h + ['h'] + rest;
      IndexOf(s, 'h') == Some(|h|) && s[..|h|] == h && s[|h| + 1..] == rest
  {
    IndexOfAfter(h, 'h', rest);
    var s := h + ['h'] + rest;
    assert s[..|h|] == h;
    assert s[|h| + 1..] == rest;
  }

  /** ParseTempo's hours-and-minutes branch, with the pieces already read. */
  lemma ReadHoursMinutes(s: string, k: nat, ore: int, min: int)
    requires IndexOf(s, 'h') == Some(k)
    requires ParseDecimal(s[..k]) == Some(ore)
    requires var rest := s[k + 1..];
      |rest| >= 2 && rest[0] == ' ' && rest[|rest| - 1] == 'm' && ParseDecimal(rest[1..|rest| - 1]) == Some(min)
    ensures ParseTempo(s) == Some(ore * 60 + min)
  {
  }

  /** Two different durations are never written the same way. */
  lemma FormatoTempoInjective(a: int, b: int)
    requires FormatoTempo(a) == FormatoTempo(b)
    ensures a == b
  {
    FormatoTempoRoundTrip(a);
    FormatoTempoRoundTrip(b);
  }
}
