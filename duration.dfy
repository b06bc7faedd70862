/** `parseDuration` (netlify/functions/info.js, lines 51-57): the time part of an
    ISO 8601 duration ("format with designators", `PT[nH][nM][nS]`) read with
    the regular expression `PT(?:(\d+)H)?(?:(\d+)M)?(?:(\d+)S)?` and converted
    to seconds. */
module Duration {
  import opened Wrappers
  import opened Decimal

  /** "PT" starts at position k. */
  predicate PTAt(s: string, k: int) {
    0 <= k && k + 1 < |s| && s[k] == 'P' && s[k + 1] == 'T'
  }

  predicate ContainsPT(s: string) {
    exists k :: 0 <= k < |s| && PTAt(s, k)
  }

  /** The first "PT" at or after `from`; the regular expression always matches
      there, because everything after `PT` is optional. */
  function FirstPT(s: string, from: nat): (r: Option<nat>)
    ensures r.Some? ==> from <= r.value && PTAt(s, r.value)
    ensures r.Some? ==> forall j :: from <= j < r.value ==> !PTAt(s, j)
    ensures r.None? ==> forall j :: from <= j ==> !PTAt(s, j)
    decreases |s| - from
  {
    if from + 1 >= |s| then None
    else if PTAt(s, from) then Some(from)
    else FirstPT(s, from + 1)
  }

  /** The length of the greedy run `\d+` (possibly empty) at the front of s. */
  function DigitRun(s: string): (n: nat)
    ensures n <= |s| && AllDigits(s[..n])
    ensures n == |s| || !IsDigit(s[n])
  {
    if s == [] || !IsDigit(s[0]) then 0
    else
      var n := 1 + DigitRun(s[1..]);
      assert s[..n] == [s[0]] + s[1..][..n - 1];
      n
  }

  /** The greedy digit run is the only digit prefix followed by a non-digit
      (or by the end of the text). */
  lemma {:induction false} DigitRunUnique(s: string, n: nat)
    requires n <= |s| && AllDigits(s[..n])
    requires n == |s| || !IsDigit(s[n])
    ensures DigitRun(s) == n
    decreases n
  {
    if n > 0 {
      assert s[..n][0] == s[0];
      assert s[1..][..n - 1] == s[..n][1..];
      DigitRunUnique(s[1..], n - 1);
    }
  }

  /** s starts with the group `(\d+)U`: n digits and then the designator. */
  predicate GroupAt(s: string, n: int, unit: char) {
    0 < n < |s| && AllDigits(s[..n]) && !IsDigit(s[n]) && s[n] == unit
  }

  /** One optional group `(?:(\d+)U)?` at the front of s: its value (`|| 0`
      when absent) and the text after it. A greedy `\d+` that is not followed
      by the designator U cannot match any shorter, so the group is then
      skipped and nothing is consumed. */
  function Component(s: string, unit: char): (r: (nat, string))
    ensures forall n :: GroupAt(s, n, unit) ==> r.0 == DigitsValue(s[..n]) && r.1 == s[n + 1..]
    ensures (exists n :: GroupAt(s, n, unit)) || (r.0 == 0 && r.1 == s)
  {
    var n := DigitRun(s);
    assert forall k | GroupAt(s, k, unit) :: k == n by {
      forall k | GroupAt(s, k, unit) ensures k == n {
        DigitRunUnique(s, k);
      }
    }
    assert 0 < n < |s| && s[n] == unit ==> GroupAt(s, n, unit);
    if 0 < n < |s| && s[n] == unit then (DigitsValue(s[..n]), s[n + 1..]) else (0, s)
  }

  /** The three groups after "PT", read in H-M-S order: 3600·H + 60·M + S. */
  function ReadGroups(s: string): nat {
    var (hours, afterHours) := Component(s, 'H');
    var (minutes, afterMinutes) := Component(afterHours, 'M');
    var (seconds, _) := Component(afterMinutes, 'S');
    hours * 3600 + minutes * 60 + seconds
  }

  /** `parseDuration(duration)`: None where the source reads index 1 of the
      `null` that `match` returns (a TypeError), otherwise the seconds of the
      groups after the first "PT". */
  function ParseDuration(s: string): (r: Option<nat>)
    ensures r.Some? <==> ContainsPT(s)
  {
    match FirstPT(s, 0)
    case None => None
    case Some(k) => Some(ReadGroups(s[k + 2..]))
  }

  /** The text of one designator part: the decimal number and its designator,
      or nothing when the part is omitted. */
  function Part(n: Option<nat>, unit: char): string {
    match n
    case None => ""
    case Some(v) => NatToDecimal(v) + [unit]
  }

  /** The designator parts `[hH][mM][sS]`, each present or omitted. */
  function Designators(h: Option<nat>, m: Option<nat>, s: Option<nat>): string {
    Part(h, 'H') + Part(m, 'M') + Part(s, 'S')
  }

  /** The ISO 8601 time duration `PT[hH][mM][sS]`. */
  function IsoTime(h: Option<nat>, m: Option<nat>, s: Option<nat>): string {
    "PT" + Designators(h, m, s)
  }

  /** A digit string d followed by a non-digit or nothing is the greedy run. */
  lemma {:induction false} DigitRunOf(d: string, rest: string)
    requires AllDigits(d)
    requires rest == [] || !IsDigit(rest[0])
    ensures DigitRun(d + rest) == |d|
    decreases |d|
  {
    if |d| > 0 {
      assert (d + rest)[1..] == d[1..] + rest;
      DigitRunOf(d[1..], rest);
    }
  }

  /** The group for `unit` at a part `v u`: read when u is `unit`, skipped otherwise. */
  lemma ComponentOfPart(v: nat, u: char, tail: string, unit: char)
    requires u == 'H' || u == 'M' || u == 'S'
    ensures u == unit ==> Component(Part(Some(v), u) + tail, unit).0 == v
    ensures u == unit ==> Component(Part(Some(v), u) + tail, unit).1 == tail
    ensures u != unit ==> Component(Part(Some(v), u) + tail, unit).0 == 0
    ensures u != unit ==> Component(Part(Some(v), u) + tail, unit).1 == Part(Some(v), u) + tail
  {
    var d := NatToDecimal(v);
    var s := Part(Some(v), u) + tail;
    assert s == d + ([u] + tail);
    DigitRunOf(d, [u] + tail);
    assert s[..|d|] == d && s[|d|] == u && s[|d| + 1..] == tail;
    DecimalRoundTrip(v);
  }

  /** The hours group of `H M S`: read if present, otherwise skipped. */
  lemma HoursGroup(h: Option<nat>, m: Option<nat>, s: Option<nat>)
    ensures Component(Designators(h, m, s), 'H').0 == h.GetOr(0)
    ensures Component(Designators(h, m, s), 'H').1 == Part(m, 'M') + Part(s, 'S')
  {
    var ph, pm, ps := Part(h, 'H'), Part(m, 'M'), Part(s, 'S');
    if h.Some? {
      assert ph + pm + ps == ph + (pm + ps);
      ComponentOfPart(h.value, 'H', pm + ps, 'H');
    } else if m.Some? {
      assert ph + pm + ps == Part(Some(m.value), 'M') + ps;
      ComponentOfPart(m.value, 'M', ps, 'H');
    } else if s.Some? {
      assert ph + pm + ps == Part(Some(s.value), 'S') + "";
      ComponentOfPart(s.value, 'S', "", 'H');
    } else {
      assert ph + pm + ps == "";
    }
  }

  /** The minutes group of `M S`: read if present, otherwise skipped. */
  lemma MinutesGroup(m: Option<nat>, s: Option<nat>)
    ensures Component(Part(m, 'M') + Part(s, 'S'), 'M').0 == m.GetOr(0)
    ensures Component(Part(m, 'M') + Part(s, 'S'), 'M').1 == Part(s, 'S')
  {
    var pm, ps := Part(m, 'M'), Part(s, 'S');
    if m.Some? {
      assert pm == Part(Some(m.value), 'M');
      ComponentOfPart(m.value, 'M', ps, 'M');
    } else if s.Some? {
      assert pm + ps == Part(Some(s.value), 'S') + "";
      ComponentOfPart(s.value, 'S', "", 'M');
    } else {
      assert pm + ps == "";
    }
  }

  /** The seconds group of `S`: read if present, 0 otherwise. */
  lemma SecondsGroup(s: Option<nat>)
    ensures Component(Part(s, 'S'), 'S').0 == s.GetOr(0)
  {
    if s.Some? {
      assert Part(s, 'S') == Part(Some(s.value), 'S') + "";
      ComponentOfPart(s.value, 'S', "", 'S');
    }
  }

  /** Reading the three groups of `H M S`: each present part contributes its
      value and each omitted part contributes 0. */
  lemma ReadIsoGroups(h: Option<nat>, m: Option<nat>, s: Option<nat>)
    ensures ReadGroups(Designators(h, m, s)) ==
            h.GetOr(0) * 3600 + m.GetOr(0) * 60 + s.GetOr(0)
  {
    HoursGroup(h, m, s);
    MinutesGroup(m, s);
    SecondsGroup(s);
  }

  /** The groups are read from just after the leading "PT". */
  lemma ParseAfterPT(groups: string)
    ensures ParseDuration("PT" + groups) == Some(ReadGroups(groups))
  {
    var t := "PT" + groups;
    assert PTAt(t, 0);
    assert t[2..] == groups;
  }

  /** Reading `PT` + H + M + S: each present part contributes its value and
      each omitted part contributes 0. */
  lemma ParseIsoTime(h: Option<nat>, m: Option<nat>, s: Option<nat>)
    ensures ParseDuration(IsoTime(h, m, s)).Some?
    ensures ParseDuration(IsoTime(h, m, s)).value == h.GetOr(0) * 3600 + m.GetOr(0) * 60 + s.GetOr(0)
  {
    ParseAfterPT(Designators(h, m, s));
    ReadIsoGroups(h, m, s);
  }

  /** Only the first "PT" counts: text before it that holds no "PT" of its own
      is skipped. */
  lemma LeadingTextIgnored(prefix: string, rest: string)
    requires !ContainsPT(prefix)
    ensures ParseDuration(prefix + "PT" + rest) == ParseDuration("PT" + rest)
  {
    var t := prefix + "PT" + rest;
    forall j | 0 <= j < |prefix| ensures !PTAt(t, j) {
      if j + 1 < |prefix| {
        assert !PTAt(prefix, j);
      } else {
        assert t[j + 1] == 'P';
      }
    }
    assert PTAt(t, |prefix|);
    assert FirstPT(t, 0) == Some(|prefix|);
    assert t[|prefix| + 2..] == rest;
    ParseAfterPT(rest);
  }

  /** Writing every part, `PT{h}H{m}M{s}S`, gives 3600h + 60m + s. */
  lemma ParseFullIsoTime(h: nat, m: nat, s: nat)
    ensures ParseDuration(IsoTime(Some(h), Some(m), Some(s))).Some?
    ensures ParseDuration(IsoTime(Some(h), Some(m), Some(s))).value == 3600 * h + 60 * m + s
  {
    var x, y, z := Some(h), Some(m), Some(s);
    assert x.GetOr(0) == h && y.GetOr(0) == m && z.GetOr(0) == s;
    ParseIsoTime(x, y, z);
  }

  /** A part written only when its value is not 0, as in `PT3M20S`. */
  function Omitted(n: nat): Option<nat> {
    if n == 0 then None else Some(n)
  }

  /** Dropping the parts whose value is 0 does not change the reading:
      `PT3M20S` reads as 200, like `PT0H3M20S`. */
  lemma ZeroPartsOptional(h: nat, m: nat, s: nat)
    ensures ParseDuration(IsoTime(Omitted(h), Omitted(m), Omitted(s))).Some?
    ensures ParseDuration(IsoTime(Omitted(h), Omitted(m), Omitted(s))).value == 3600 * h + 60 * m + s
  {
    var h', m', s' := Omitted(h), Omitted(m), Omitted(s);
    assert h'.GetOr(0) == h && m'.GetOr(0) == m && s'.GetOr(0) == s;
    ParseIsoTime(h', m', s');
  }

  /** "PT" alone reads as 0 seconds. */
  lemma BarePT()
    ensures ParseDuration("PT") == Some(0)
  {
    ParseIsoTime(None, None, None);
  }

  /** Parts are read in H-M-S order only: in `PT20S3M` the seconds group ends
      the match and the trailing `3M` is not read. */
  lemma OutOfOrderPartsIgnored()
    ensures ParseDuration("PT20S3M") == Some(20)
  {
    var rest := Part(Some(20), 'S') + "3M";
    assert "PT20S3M" == "PT" + rest;
    ParseAfterPT(rest);
    ComponentOfPart(20, 'S', "3M", 'H');
    ComponentOfPart(20, 'S', "3M", 'M');
    ComponentOfPart(20, 'S', "3M", 'S');
  }

  /** A duration with a day part, such as `P1DT2H`, has no "PT" and is refused. */
  lemma DayPartRefused()
    ensures ParseDuration("P1DT2H") == None
  {
    var s := "P1DT2H";
    assert s[1] == '1';
    forall k | 0 <= k < |s| ensures !PTAt(s, k) {
      if k > 0 {
        assert s[k] != 'P';
      }
    }
    assert !ContainsPT(s);
  }
}
