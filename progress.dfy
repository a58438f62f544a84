/**
 * The progress parser of the graphical front-end: `parse_progress` classifies one
 * (already stripped) line of the downloader's output, `handle_progress_data`
 * dispatches a decoded JSON progress object on its `status`, and `format_eta`
 * renders a remaining time.
 */
module Progress {
  import opened Wrappers
  import opened Text

  datatype Level = Debug | Info | Success | Warning | Error

  /**
   * The `eta` of a progress object after `progress.get("eta", "N/A")`: the
   * literal "N/A" (also when absent), a value `int(eta)` accepts, giving
   * `seconds`, or a value it rejects, whose `str` is `text`.
   */
  datatype Eta = NotAvailable | Whole(seconds: int) | Unparsable(text: string)

  /**
   * The `progress` member of a decoded object, as the "downloading" branch reads
   * it: either `percent` rendered with `{:.1f}`, `speed` rendered by
   * `format_speed`, and `eta`; or a value on which reading or rendering raises
   * (a `progress` that is not an object, a `percent` that is not a number),
   * together with the text of that exception.
   */
  datatype ProgressField = Progress(percent: string, speed: string, eta: Eta) | Broken(error: string)

  /** The fields of a decoded progress object that the dispatch reads. */
  datatype Payload = Payload(status: Option<string>, message: Option<string>, progress: ProgressField)

  /** What one line makes the front-end log. */
  datatype Emitted = Silent | Logged(level: Level, text: string)

  /** What the dispatch does: log (or not), or raise an exception with this text. */
  datatype Handled = Emit(emitted: Emitted) | Raise(error: string)

  /** The info line logged for a "downloading" status. */
  function ProgressLine(percent: string, speed: string, eta: string): string {
    "Downloading: " + percent + "% complete | Speed: " + speed + " | ETA: " + eta
  }

  /** `format_eta`. */
  function FormatEta(eta: Eta): string {
    match eta
    case NotAvailable => "N/A"
    case Unparsable(text) => text
    case Whole(n) =>
      if n < 60 then IntToString(n) + "s"
      else if n < 3600 then TwoParts(n / 60, 'm', n % 60, 's')
      else TwoParts(n / 3600, 'h', (n % 3600) / 60, 'm')
  }

  /** "Am Bs" or "Ah Bm". */
  function TwoParts(a: nat, u: char, b: nat, v: char): string {
    NatToString(a) + [u, ' '] + NatToString(b) + [v]
  }

  /**
   * Reads a rendered remaining time back as seconds. It accepts only the three
   * forms, with canonical numerals (no leading zero), each for its own range:
   * "Ns" with N below 60 or negative, "Mm Ss" with M from 1 to 59, and "Hh Mm"
   * with H at least 1; the second part of a two-part form must be below 60.
   */
  function ReadEta(t: string): Option<int> {
    if |t| > 0 && t[0] == '-' then
      match ReadSeconds(t[1..])
      case Some(v) => if v > 0 then var w: int := v; Some(-w) else None
      case None => None
    else
      var k := LeadingDigits(t);
      if !Canonical(t[..k]) then None
      else
        ReadAfterNumeral(DigitsValue(t[..k]), t[k..])
  }

  /** What follows the leading numeral `a`: "s", or a unit, a space and the second part. */
  function ReadAfterNumeral(a: nat, rest: string): Option<int> {
    if rest == "s" then (if a < 60 then Some(a) else None)
    else if |rest| < 2 || rest[1] != ' ' then None
    else ReadSecondPart(a, rest[0], rest[2..])
  }

  /** "Ns" with N a canonical numeral. */
  function ReadSeconds(t: string): Option<nat> {
    var k := LeadingDigits(t);
    if Canonical(t[..k]) && t[k..] == "s" then Some(DigitsValue(t[..k])) else None
  }

  /** The part after "Am " (unit `u` = 'm') or "Ah " (`u` = 'h'), which must be below 60. */
  function ReadSecondPart(a: nat, u: char, tail: string): Option<int> {
    var k := LeadingDigits(tail);
    if !Canonical(tail[..k]) then None
    else
      var b := DigitsValue(tail[..k]);
      if b >= 60 then None
      else if u == 'm' && 0 < a < 60 && tail[k..] == "s" then Some(a * 60 + b)
      else if u == 'h' && 0 < a && tail[k..] == "m" then Some(a * 3600 + b * 60)
      else None
  }

  /** Reading `str(n)` followed by a non-digit splits right after the digits. */
  lemma ReadNumber(n: nat, rest: string)
    requires rest == [] || !IsDigit(rest[0])
    ensures var t := NatToString(n) + rest;
      var k := LeadingDigits(t);
      k == |NatToString(n)| && t[..k] == NatToString(n) && t[k..] == rest && Canonical(t[..k]) && DigitsValue(t[..k]) == n
  {
    NatToStringRoundTrip(n);
    NatToStringCanonical(n);
    LeadingDigitsOfConcat(NatToString(n), rest);
    var t := NatToString(n) + rest;
    assert t[..|NatToString(n)|] == NatToString(n);
  }

  lemma HoursAndMinutes(n: int)
    requires n >= 3600
    ensures (n / 3600) * 3600 + ((n % 3600) / 60) * 60 == n - n % 60
    ensures (n % 3600) / 60 < 60
  {
    var h, r := n / 3600, n % 3600;
    var m, s := r / 60, r % 60;
    assert n == h * 3600 + r && 0 <= r < 3600;
    assert r == m * 60 + s && 0 <= s < 60;
    assert m < 60;
    var q := h * 60 + m;
    assert n == q * 60 + s;
    ModOfMultiple(q, s);
  }

  lemma ModOfMultiple(q: int, s: int)
    requires 0 <= s < 60
    ensures (q * 60 + s) % 60 == s
  {
  }

  /**
   * The rendering denotes the same time: below an hour exactly, from an hour on
   * truncated to the minute. As the reader accepts only the canonical form of
   * each range, this also shows that the rendering takes that form, with the
   * second part of the two-part forms below 60.
   */
  lemma FormatEtaReadsBack(n: int)
    ensures ReadEta(FormatEta(Whole(n))) == Some(if n < 3600 then n else n - n % 60)
  {
    if n < 0 {
      ReadBackNegative(n);
    } else if n < 60 {
      ReadBackSeconds(n);
    } else if n < 3600 {
      ReadBackMinutes(n);
    } else {
      ReadBackHours(n);
    }
  }

  lemma ReadBackNegative(n: int)
    requires n < 0
    ensures ReadEta(FormatEta(Whole(n))) == Some(n)
  {
    var m: nat := -n;
    var t := FormatEta(Whole(n));
    assert t == "-" + NatToString(m) + "s";
    assert t[0] == '-' && t[1..] == NatToString(m) + "s";
    ReadSecondsBack(m);
  }

  lemma ReadSecondsBack(m: nat)
    ensures ReadSeconds(NatToString(m) + "s") == Some(m)
  {
    ReadNumber(m, "s");
  }

  lemma ReadBackSeconds(n: int)
    requires 0 <= n < 60
    ensures ReadEta(FormatEta(Whole(n))) == Some(n)
  {
    ReadNumber(n, "s");
    NatToStringRoundTrip(n);
  }

  lemma ReadSecondPartBack(a: nat, u: char, b: nat, v: char)
    requires (u == 'm' && v == 's' && 0 < a < 60) || (u == 'h' && v == 'm' && 0 < a)
    requires b < 60
    ensures ReadSecondPart(a, u, NatToString(b) + [v]) == Some(if u == 'm' then a * 60 + b else a * 3600 + b * 60)
  {
    ReadNumber(b, [v]);
  }

  /** Reading back either two-part form. */
  lemma ReadBackTwoParts(a: nat, u: char, b: nat, v: char, rest: string)
    requires (u == 'm' && v == 's' && 0 < a < 60) || (u == 'h' && v == 'm' && 0 < a)
    requires b < 60 && rest == [u, ' '] + NatToString(b) + [v]
    ensures ReadEta(NatToString(a) + rest) == Some(if u == 'm' then a * 60 + b else a * 3600 + b * 60)
  {
    ReadEtaOfNumeral(a, rest);
    assert rest != "s" && |rest| >= 2 && rest[1] == ' ' && rest[0] == u;
    assert rest[2..] == NatToString(b) + [v];
    ReadSecondPartBack(a, u, b, v);
  }

  /** How the reader treats a text that starts with a numeral. */
  lemma ReadEtaOfNumeral(a: nat, rest: string)
    requires rest == [] || !IsDigit(rest[0])
    ensures ReadEta(NatToString(a) + rest) == ReadAfterNumeral(a, rest)
  {
    var t := NatToString(a) + rest;
    ReadNumber(a, rest);
    NatToStringRoundTrip(a);
    assert t[0] != '-' by {
      assert t[0] == NatToString(a)[0];
    }
  }

  /** The same, with the parts written as the rendering writes them. */
  lemma ReadBackRendered(a: nat, u: char, b: nat, v: char)
    requires (u == 'm' && v == 's' && 0 < a < 60) || (u == 'h' && v == 'm' && 0 < a)
    requires b < 60
    ensures ReadEta(TwoParts(a, u, b, v)) == Some(if u == 'm' then a * 60 + b else a * 3600 + b * 60)
  {
    var rest := [u, ' '] + NatToString(b) + [v];
    assert TwoParts(a, u, b, v) == NatToString(a) + rest;
    ReadBackTwoParts(a, u, b, v, rest);
  }

  lemma ReadBackMinutes(n: int)
    requires 60 <= n < 3600
    ensures ReadEta(FormatEta(Whole(n))) == Some(n)
  {
    var m, s := n / 60, n % 60;
    assert 0 < m < 60;
    ReadBackRendered(m, 'm', s, 's');
    assert FormatEta(Whole(n)) == TwoParts(m, 'm', s, 's');
  }

  lemma ReadBackHours(n: int)
    requires n >= 3600
    ensures ReadEta(FormatEta(Whole(n))) == Some(n - n % 60)
  {
    var h, m := n / 3600, (n % 3600) / 60;
    assert h > 0;
    HoursAndMinutes(n);
    ReadBackRendered(h, 'h', m, 'm');
    assert FormatEta(Whole(n)) == TwoParts(h, 'h', m, 'm');
  }

  /**
   * Conversely, every text the reader accepts is the rendering of the time it
   * denotes; so each time has exactly one accepted form, the one rendered.
   */
  lemma FormatEtaOfRead(t: string)
    requires ReadEta(t).Some?
    ensures FormatEta(Whole(ReadEta(t).value)) == t
  {
    if |t| > 0 && t[0] == '-' {
      NegativeOfRead(t);
    } else {
      UnsignedOfRead(t);
    }
  }

  lemma NegativeOfRead(t: string)
    requires |t| > 0 && t[0] == '-' && ReadEta(t).Some?
    ensures FormatEta(Whole(ReadEta(t).value)) == t
  {
    var u := t[1..];
    var k := LeadingDigits(u);
    var d := u[..k];
    CanonicalRoundTrip(d);
    var m := DigitsValue(d);
    assert u == d + "s";
    assert t == "-" + u;
    var w: int := m;
    assert ReadEta(t).value == -w;
  }

  lemma UnsignedOfRead(t: string)
    requires !(|t| > 0 && t[0] == '-') && ReadEta(t).Some?
    ensures FormatEta(Whole(ReadEta(t).value)) == t
  {
    var a, rest := UnsignedSplit(t);
    ReadEtaOfNumeral(a, rest);
    AfterNumeralOfRead(a, rest);
  }

  lemma AfterNumeralOfRead(a: nat, rest: string)
    requires ReadAfterNumeral(a, rest).Some?
    ensures FormatEta(Whole(ReadAfterNumeral(a, rest).value)) == NatToString(a) + rest
  {
    if rest == "s" {
      assert FormatEta(Whole(a)) == NatToString(a) + "s";
    } else {
      var u, tail := rest[0], rest[2..];
      assert rest == [u, ' '] + tail;
      TwoPartsOfRead(a, u, tail);
    }
  }

  /** A text the reader accepts without a sign starts with a canonical numeral. */
  lemma UnsignedSplit(t: string) returns (a: nat, rest: string)
    requires !(|t| > 0 && t[0] == '-') && ReadEta(t).Some?
    ensures t == NatToString(a) + rest && (rest == [] || !IsDigit(rest[0]))
  {
    var k := LeadingDigits(t);
    var d := t[..k];
    assert Canonical(d);
    CanonicalRoundTrip(d);
    a, rest := DigitsValue(d), t[k..];
    assert t == d + rest;
  }

  /** A two-part text the reader accepts is the rendering of the time it denotes. */
  lemma TwoPartsOfRead(a: nat, u: char, tail: string)
    requires ReadSecondPart(a, u, tail).Some?
    ensures FormatEta(Whole(ReadSecondPart(a, u, tail).value)) == NatToString(a) + [u, ' '] + tail
  {
    if u == 'm' {
      MinutesPartOfRead(a, tail);
    } else {
      HoursPartOfRead(a, tail);
    }
  }

  lemma MinutesPartOfRead(a: nat, tail: string)
    requires ReadSecondPart(a, 'm', tail).Some?
    ensures FormatEta(Whole(ReadSecondPart(a, 'm', tail).value)) == NatToString(a) + ['m', ' '] + tail
  {
    var b := MinutesTail(a, tail);
    MinutesOfRead(a, b);
    TwoPartsSplit(a, 'm', b, 's');
  }

  lemma HoursPartOfRead(a: nat, tail: string)
    requires ReadSecondPart(a, 'h', tail).Some?
    ensures FormatEta(Whole(ReadSecondPart(a, 'h', tail).value)) == NatToString(a) + ['h', ' '] + tail
  {
    var b := HoursTail(a, tail);
    HoursOfRead(a, b);
    TwoPartsSplit(a, 'h', b, 'm');
  }

  /** The part after "Am " that the reader accepts is the rendering of a second count below 60. */
  lemma MinutesTail(a: nat, tail: string) returns (b: nat)
    requires ReadSecondPart(a, 'm', tail).Some?
    ensures 0 < a < 60 && b < 60 && tail == NatToString(b) + "s"
    ensures ReadSecondPart(a, 'm', tail) == Some(a * 60 + b)
  {
    var k := LeadingDigits(tail);
    var d := tail[..k];
    CanonicalRoundTrip(d);
    b := DigitsValue(d);
    assert tail == d + tail[k..];
  }

  /** The part after "Ah " that the reader accepts is the rendering of a minute count below 60. */
  lemma HoursTail(a: nat, tail: string) returns (b: nat)
    requires ReadSecondPart(a, 'h', tail).Some?
    ensures 0 < a && b < 60 && tail == NatToString(b) + "m"
    ensures ReadSecondPart(a, 'h', tail) == Some(a * 3600 + b * 60)
  {
    var k := LeadingDigits(tail);
    var d := tail[..k];
    CanonicalRoundTrip(d);
    b := DigitsValue(d);
    assert tail == d + tail[k..];
  }

  lemma MinutesOfRead(a: nat, b: nat)
    requires 0 < a < 60 && b < 60
    ensures FormatEta(Whole(a * 60 + b)) == TwoParts(a, 'm', b, 's')
  {
    DivMod60(a, b);
  }

  lemma HoursOfRead(a: nat, b: nat)
    requires 0 < a && b < 60
    ensures FormatEta(Whole(a * 3600 + b * 60)) == TwoParts(a, 'h', b, 'm')
  {
    DivMod3600(a, b * 60);
    DivMod60(b, 0);
  }

  /** A two-part text is its first part followed by its second. */
  lemma TwoPartsSplit(a: nat, u: char, b: nat, v: char)
    ensures TwoParts(a, u, b, v) == NatToString(a) + [u, ' '] + (NatToString(b) + [v])
  {
  }

  lemma DivMod60(q: int, r: int)
    requires 0 <= r < 60
    ensures (q * 60 + r) / 60 == q && (q * 60 + r) % 60 == r
  {
  }

  lemma DivMod3600(q: int, r: int)
    requires 0 <= r < 3600
    ensures (q * 3600 + r) / 3600 == q && (q * 3600 + r) % 3600 == r
  {
  }

  /** The rendering is the one text the reader maps to the time it denotes. */
  lemma FormatEtaIsOnlyForm(n: int, t: string)
    requires ReadEta(t) == ReadEta(FormatEta(Whole(n)))
    ensures t == FormatEta(Whole(n))
  {
    FormatEtaReadsBack(n);
    FormatEtaOfRead(t);
    FormatEtaOfRead(FormatEta(Whole(n)));
  }

  /** The severity of a line that is not a decoded progress object. */
  function Classify(line: string): Level {
    if Contains(line, "ERROR") then Error
    else if Contains(line, "WARNING") then Warning
    else if Contains(line, "Downloading") || Contains(line, "Merging") then Info
    else Debug
  }

  /** Severity by substring, in priority order: "ERROR", then "WARNING", then "Downloading" or "Merging". */
  lemma ClassifyPriority(line: string)
    ensures Classify(line) == Error <==> exists i: nat :: OccursAt(line, "ERROR", i)
    ensures Classify(line) == Warning <==>
      (forall i: nat :: !OccursAt(line, "ERROR", i)) && exists i: nat :: OccursAt(line, "WARNING", i)
    ensures Classify(line) == Info <==>
      && (forall i: nat :: !OccursAt(line, "ERROR", i) && !OccursAt(line, "WARNING", i))
      && exists i: nat :: OccursAt(line, "Downloading", i) || OccursAt(line, "Merging", i)
    ensures Classify(line) == Debug <==>
      forall i: nat :: !OccursAt(line, "ERROR", i) && !OccursAt(line, "WARNING", i)
        && !OccursAt(line, "Downloading", i) && !OccursAt(line, "Merging", i)
  {
    ContainsIff(line, "ERROR");
    ContainsIff(line, "WARNING");
    ContainsIff(line, "Downloading");
    ContainsIff(line, "Merging");
  }

  /** `line.startswith("{") and line.endswith("}")`. */
  predicate IsJsonShaped(line: string) {
    |line| > 0 && line[0] == '{' && line[|line| - 1] == '}'
  }

  /** `handle_progress_data`: dispatch on `status`; a missing or unknown status logs nothing. */
  function HandleProgressData(p: Payload): Handled {
    match p.status
    case None => Emit(Silent)
    case Some(status) =>
      if status == "downloading" then
        match p.progress
        case Progress(percent, speed, eta) => Emit(Logged(Info, ProgressLine(percent, speed, FormatEta(eta))))
        case Broken(error) => Raise(error)
      else if status == "finished" then Emit(Logged(Success, "Post-processing complete"))
      else if status == "error" then Emit(Logged(Error, "Error: " + p.message.GetOr("Unknown error")))
      else Emit(Silent)
  }

  /** What each status makes the dispatch log, and when it raises. */
  lemma DispatchByStatus(p: Payload)
    ensures p.status == Some("downloading") && p.progress.Progress? ==>
      HandleProgressData(p) == Emit(Logged(Info, ProgressLine(p.progress.percent, p.progress.speed, FormatEta(p.progress.eta))))
    ensures HandleProgressData(p).Raise? <==> p.status == Some("downloading") && p.progress.Broken?
    ensures HandleProgressData(p).Raise? ==> HandleProgressData(p).error == p.progress.error
    ensures HandleProgressData(p) == Emit(Logged(Success, "Post-processing complete")) <==> p.status == Some("finished")
    ensures p.status == Some("error") ==> HandleProgressData(p) == Emit(Logged(Error, "Error: " + p.message.GetOr("Unknown error")))
    ensures (HandleProgressData(p).Emit? && HandleProgressData(p).emitted.Logged? && HandleProgressData(p).emitted.level == Error)
      <==> p.status == Some("error")
    ensures (HandleProgressData(p).Emit? && HandleProgressData(p).emitted.Logged? && HandleProgressData(p).emitted.level == Info)
      <==> p.status == Some("downloading") && p.progress.Progress?
    ensures HandleProgressData(p) == Emit(Silent) <==>
      p.status.None? || (p.status.value != "downloading" && p.status.value != "finished" && p.status.value != "error")
  {
  }

  /**
   * `parse_progress`. `decoded` is what `json.loads(line)` gives: `None` when it
   * raises a decode error. It is only consulted for a line shaped `{...}`. An
   * exception raised by the dispatch is not a decode error: the outer handler
   * logs it at error level.
   */
  function ParseProgress(line: string, decoded: Option<Payload>): (r: Emitted)
    ensures line == [] ==> r == Silent
    ensures line != [] && !(IsJsonShaped(line) && decoded.Some?) ==> r == Logged(Classify(line), line)
    ensures IsJsonShaped(line) && decoded.Some? && HandleProgressData(decoded.value).Emit? ==>
      r == HandleProgressData(decoded.value).emitted
    ensures IsJsonShaped(line) && decoded.Some? && HandleProgressData(decoded.value).Raise? ==>
      r == Logged(Error, "Error parsing progress: " + HandleProgressData(decoded.value).error)
    ensures IsJsonShaped(line) && decoded.Some? ==> forall level :: r != Logged(level, line)
  {
    if line == [] then Silent
    else if IsJsonShaped(line) && decoded.Some? then
      var r := match HandleProgressData(decoded.value)
        case Emit(e) => e
        case Raise(error) => Logged(Error, "Error parsing progress: " + error);
      assert r.Logged? ==> r.text[0] != '{';
      r
    else Logged(Classify(line), line)
  }
}
