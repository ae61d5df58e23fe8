/**
 * Calendar timestamps and the date normaliser of the bookkeeping assistant
 * (`format_strin_to_datetime`). The library parsers (`datetime.strptime` and
 * `datetime.fromisoformat`) are parameters: the model fixes the order in which
 * they are tried and the fallbacks, not what each format accepts.
 */
module Dates {
  import opened Wrappers

  /** A calendar month; Python's `datetime` never holds any other value. */
  type MonthNum = m: int | 1 <= m <= 12 witness 1

  datatype DateTime = DateTime(year: int, month: MonthNum, day: int,
                               hour: int, minute: int, second: int, microsecond: int)

  /** What the normaliser may be handed: a string, an object that already has
      `month` and `year` attributes, or anything else. */
  datatype DateInput = Text(s: string) | Stamp(dt: DateTime) | Unrecognised

  /** `datetime.strptime(input, format)`, with `None` for a `ValueError`. */
  type Strptime = (string, string) -> Option<DateTime>

  /** `datetime.fromisoformat(input)`, with `None` for a `ValueError`. */
  type IsoParser = string -> Option<DateTime>

  /** The sentinel that means "use the current time". */
  const NowSentinel: string := "ngay_tao"

  /** The accepted formats, in the order in which they are tried. */
  const Formats: seq<string> := [
    "%Y-%m-%d %H:%M:%S.%f",
    "%Y-%m-%d %H:%M:%S",
    "%Y-%m-%d",
    "%d/%m/%Y %H:%M:%S",
    "%d/%m/%Y",
    "%d-%m-%Y %H:%M:%S",
    "%d-%m-%Y"
  ]

  /** The index of the first format in `fmts` that parses `s`, if any. */
  function FirstMatch(s: string, fmts: seq<string>, strptime: Strptime): (k: Option<nat>)
    ensures k.Some? ==> k.value < |fmts| && strptime(s, fmts[k.value]).Some?
    ensures k.Some? ==> forall j :: 0 <= j < k.value ==> strptime(s, fmts[j]).None?
    ensures k.None? ==> forall j :: 0 <= j < |fmts| ==> strptime(s, fmts[j]).None?
    decreases |fmts|
  {
    if fmts == [] then None
    else if strptime(s, fmts[0]).Some? then Some(0)
    else match FirstMatch(s, fmts[1..], strptime)
      case None => None
      case Some(k) => Some(k + 1)
  }

  /** What one character becomes under `replace('Z', '+00:00')`. */
  function ZOf(c: char): string {
    if c == 'Z' then "+00:00" else [c]
  }

  /** `s.replace('Z', '+00:00')`: every UTC marker spelled as an offset. */
  function ReplaceZ(s: string): (r: string)
    ensures 'Z' !in r
    ensures 'Z' !in s ==> r == s
    ensures |r| >= |s|
    ensures |s| == 1 ==> r == if s[0] == 'Z' then "+00:00" else s
  {
    if s == [] then [] else ZOf(s[0]) + ReplaceZ(s[1..])
  }

  /** The rewrite works character by character: it distributes over concatenation,
      so with the one-character case above it is exactly `replace('Z', '+00:00')`. */
  lemma {:induction false} ReplaceZAppend(a: string, b: string)
    ensures ReplaceZ(a + b) == ReplaceZ(a) + ReplaceZ(b)
    decreases |a|
  {
    if a == [] {
      assert a + b == b;
    } else {
      assert (a + b)[0] == a[0] && (a + b)[1..] == a[1..] + b;
      ReplaceZAppend(a[1..], b);
    }
  }

  /** `format_strin_to_datetime`: total, first match wins, the current time as the last resort. */
  function Normalize(input: DateInput, now: DateTime, strptime: Strptime, fromIso: IsoParser): (d: DateTime)
    ensures input.Stamp? ==> d == input.dt
    ensures input.Unrecognised? ==> d == now
    ensures input == Text(NowSentinel) ==> d == now
  {
    match input
    case Text(s) =>
      if s == NowSentinel then now
      else (match FirstMatch(s, Formats, strptime)
        case Some(k) => strptime(s, Formats[k]).value
        case None => fromIso(ReplaceZ(s)).GetOr(now))
    case Stamp(dt) => dt
    case Unrecognised => now
  }

  /** A string other than the sentinel is parsed by the first format that accepts it;
      when none does, by the ISO parser; when that fails too, it becomes `now`. */
  lemma NormalizeText(s: string, now: DateTime, strptime: Strptime, fromIso: IsoParser)
    requires s != NowSentinel
    ensures forall k :: (0 <= k < |Formats| && strptime(s, Formats[k]).Some?
                         && (forall j :: 0 <= j < k ==> strptime(s, Formats[j]).None?)
                         ==> Normalize(Text(s), now, strptime, fromIso) == strptime(s, Formats[k]).value)
    ensures (forall j :: 0 <= j < |Formats| ==> strptime(s, Formats[j]).None?)
            ==> Normalize(Text(s), now, strptime, fromIso) == fromIso(ReplaceZ(s)).GetOr(now)
  {
  }
}
