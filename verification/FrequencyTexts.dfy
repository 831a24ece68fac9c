/**
 Frequencies in running text: wherever a frequency is spelled, and whatever
 stands around it, it is found, and offered to the radios that can tune it.
 */
module FrequencyTexts {
  import opened Options
  import opened Frequencies

  predicate NoDigits(s: string) {
    forall c <- s :: !('0' <= c <= '9')
  }

  /** A channel of the band: 118 to 137 MHz, or 30 to 50 and 100 to 400 MHz. */
  predicate IsChannel(khz: nat, pattern: Pattern) {
    && (if pattern.Civil? then 118000 <= khz < 137000 else 30000 <= khz < 50000 || 100000 <= khz < 400000)
    && khz % 5 == 0 && khz % 50 != 20 && khz % 50 != 45
  }

  /** Megahertz, a point, and three decimals. */
  function Spelling(khz: nat): (s: string)
    requires 10000 <= khz < 1000000
  {
    if khz >= 100000 then Spell(khz)
    else [Digit(khz / 10000), Digit(khz / 1000 % 10), '.', Digit(khz / 100 % 10), Digit(khz / 10 % 10), Digit(khz % 10)]
  }

  /** The same without the last decimal. */
  function ShortSpelling(khz: nat): (s: string)
    requires 10000 <= khz < 1000000
  {
    var s := Spelling(khz);
    s[..|s| - 1]
  }

  // ---------- text in front ----------

  lemma {:induction false} BlanksShift(a: string, b: string, i: nat)
    requires i <= |b|
    ensures SkipBlanks(a + b, |a| + i) == |a| + SkipBlanks(b, i)
    decreases |b| - i
  {
    if i < |b| {
      assert (a + b)[|a| + i] == b[i];
      if IsBlank(b[i]) {
        BlanksShift(a, b, i + 1);
      }
    }
  }

  function Shifted(m: Option<Match>, n: nat): Option<Match> {
    match m
    case None => None
    case Some(x) => Some(Match(x.found, n + x.end))
  }

  lemma WholeShift(a: string, b: string, i: nat, pattern: Pattern)
    ensures WholeAt(a + b, |a| + i, pattern)
         == match WholeAt(b, i, pattern) case None => None case Some(w) => Some(Whole(w.mhz, |a| + w.next))
  {
    assert forall k: nat :: k < |b| ==> (a + b)[|a| + k] == b[k];
  }

  /** The match that the characters from `j` on complete, after the megahertz have been read. */
  function DecimalsAt(s: string, mhz: nat, j: nat): Option<Match> {
    if j + 2 <= |s| && IsDigit(s[j]) then
      var khz := 1000 * mhz + 100 * DigitValue(s[j]);
      if j + 3 <= |s| && LongEnding(s[j + 1], s[j + 2]) then
        var long := khz + 10 * DigitValue(s[j + 1]) + DigitValue(s[j + 2]);
        Some(Match(Found(long, LongKind(long)), SkipBlanks(s, j + 3)))
      else if ShortEnding(s[j + 1]) then
        var short := khz + 10 * DigitValue(s[j + 1]) + if s[j + 1] == '2' || s[j + 1] == '7' then 5 else 0;
        Some(Match(Found(short, Only25), SkipBlanks(s, j + 2)))
      else None
    else None
  }

  lemma MatchIsDecimals(s: string, i: nat, pattern: Pattern)
    ensures MatchAt(s, i, pattern)
         == match WholeAt(s, i, pattern) case None => None case Some(w) => DecimalsAt(s, w.mhz, w.next)
  {
  }

  lemma DecimalsShift(a: string, b: string, mhz: nat, j: nat)
    ensures DecimalsAt(a + b, mhz, |a| + j) == Shifted(DecimalsAt(b, mhz, j), |a|)
  {
    hide SkipBlanks, LongEnding, ShortEnding, LongKind, IsDigit, DigitValue;
    assert j < |b| ==> (a + b)[|a| + j] == b[j];
    assert j + 1 < |b| ==> (a + b)[|a| + j + 1] == b[j + 1];
    assert j + 2 < |b| ==> (a + b)[|a| + j + 2] == b[j + 2];
    if j + 3 <= |b| {
      BlanksShift(a, b, j + 3);
    }
    if j + 2 <= |b| {
      BlanksShift(a, b, j + 2);
    }
  }

  /** What matches does not depend on the text in front. */
  lemma MatchShift(a: string, b: string, i: nat, pattern: Pattern)
    ensures MatchAt(a + b, |a| + i, pattern) == Shifted(MatchAt(b, i, pattern), |a|)
  {
    WholeShift(a, b, i, pattern);
    MatchIsDecimals(b, i, pattern);
    MatchIsDecimals(a + b, |a| + i, pattern);
    hide WholeAt, MatchAt, DecimalsAt;
    var whole := WholeAt(b, i, pattern);
    if whole.Some? {
      DecimalsShift(a, b, whole.value.mhz, whole.value.next);
    }
  }

  lemma {:induction false} SearchShift(a: string, b: string, i: nat, pattern: Pattern)
    ensures Search(a + b, |a| + i, pattern) == Shifted(Search(b, i, pattern), |a|)
    decreases |b| - i
  {
    if i < |b| {
      MatchShift(a, b, i, pattern);
      hide MatchAt;
      SearchShift(a, b, i + 1, pattern);
    }
  }

  lemma {:induction false} SearchSkips(s: string, i: nat, k: nat, pattern: Pattern)
    requires i <= k <= |s| && forall j :: i <= j < k ==> !IsDigit(s[j])
    ensures Search(s, i, pattern) == Search(s, k, pattern)
    decreases k - i
  {
    if i < k {
      assert !IsDigit(s[i]);
      assert MatchAt(s, i, pattern).None?;
      SearchSkips(s, i + 1, k, pattern);
    }
  }

  /** Text without digits in front is passed over. */
  lemma SearchPasses(a: string, b: string, pattern: Pattern)
    requires NoDigits(a)
    ensures Search(a + b, 0, pattern) == Shifted(Search(b, 0, pattern), |a|)
  {
    forall j | 0 <= j < |a| ensures !IsDigit((a + b)[j]) {
      assert (a + b)[j] == a[j] && a[j] in a;
    }
    SearchSkips(a + b, 0, |a|, pattern);
    SearchShift(a, b, 0, pattern);
  }

  /** And it changes nothing. */
  lemma ScanSkips(a: string, b: string, pattern: Pattern)
    requires NoDigits(a)
    ensures Scan(a + b, pattern) == Scan(b, pattern)
  {
    hide Search;
    SearchPasses(a, b, pattern);
    var m := Search(b, 0, pattern);
    if m.Some? {
      assert (a + b)[|a| + m.value.end..] == b[m.value.end..];
    }
  }

  lemma {:induction false} BlanksAreNoDigits(s: string, i: nat)
    requires i <= |s|
    ensures NoDigits(s[i..SkipBlanks(s, i)])
    decreases |s| - i
  {
    if i < |s| && IsBlank(s[i]) {
      BlanksAreNoDigits(s, i + 1);
      assert s[i..SkipBlanks(s, i)] == [s[i]] + s[i + 1..SkipBlanks(s, i)];
    }
  }

  /** The blanks after a match do not matter. */
  lemma ScanAfterBlanks(rest: string, pattern: Pattern)
    ensures Scan(rest[SkipBlanks(rest, 0)..], pattern) == Scan(rest, pattern)
  {
    hide Scan, SkipBlanks;
    var n := SkipBlanks(rest, 0);
    BlanksAreNoDigits(rest, 0);
    assert rest[0..n] == rest[..n] && rest[..n] + rest[n..] == rest;
    ScanSkips(rest[..n], rest[n..], pattern);
  }

  /** A match at the front is followed by what the rest of the text yields. */
  lemma MatchThenRest(a: string, rest: string, x: Found, pattern: Pattern)
    requires |a| > 0 && MatchAt(a + rest, 0, pattern) == Some(Match(x, SkipBlanks(a + rest, |a|)))
    ensures Scan(a + rest, pattern) == [x] + Scan(rest, pattern)
  {
    hide MatchAt, SkipBlanks;
    BlanksShift(a, rest, 0);
    ScanAfterBlanks(rest, pattern);
    var n := SkipBlanks(rest, 0);
    assert (a + rest)[|a| + n..] == rest[n..];
    assert Search(a + rest, 0, pattern) == MatchAt(a + rest, 0, pattern);
    hide Search;
    ScanOnce(a + rest, pattern);
  }

  lemma ScanOnce(s: string, pattern: Pattern)
    ensures match Search(s, 0, pattern)
            case None => Scan(s, pattern) == []
            case Some(m) => Scan(s, pattern) == [m.found] + Scan(s[m.end..], pattern)
  {
  }

  // ---------- a frequency in running text ----------

  lemma LongMatchThen(s: string, pattern: Pattern, mhz: nat, j: nat)
    requires WholeAt(s, 0, pattern) == Some(Whole(mhz, j)) && j + 3 <= |s|
    requires IsDigit(s[j]) && LongEnding(s[j + 1], s[j + 2])
    ensures var khz := 1000 * mhz + 100 * DigitValue(s[j]) + 10 * DigitValue(s[j + 1]) + DigitValue(s[j + 2]);
            MatchAt(s, 0, pattern) == Some(Match(Found(khz, LongKind(khz)), SkipBlanks(s, j + 3)))
  {
  }

  lemma ShortMatchThen(s: string, pattern: Pattern, mhz: nat, j: nat)
    requires WholeAt(s, 0, pattern) == Some(Whole(mhz, j)) && j + 2 <= |s| && IsDigit(s[j]) && ShortEnding(s[j + 1])
    requires j + 2 == |s| || !IsDigit(s[j + 2])
    ensures var khz := 1000 * mhz + 100 * DigitValue(s[j]) + 10 * DigitValue(s[j + 1]);
            MatchAt(s, 0, pattern)
            == Some(Match(Found(if s[j + 1] == '2' || s[j + 1] == '7' then khz + 5 else khz, Only25),
                          SkipBlanks(s, j + 2)))
  {
  }

  lemma WholeOfThree(s: string, pattern: Pattern, a: nat, b: nat, c: nat)
    requires |s| >= 4 && a < 10 && b < 10 && c < 10 && s[..4] == [Digit(a), Digit(b), Digit(c), '.']
    requires var mhz := 100 * a + 10 * b + c; if pattern.Civil? then 118 <= mhz <= 136 else 100 <= mhz <= 399
    ensures WholeAt(s, 0, pattern) == Some(Whole(100 * a + 10 * b + c, 4))
  {
    assert s[0] == s[..4][0] && s[1] == s[..4][1] && s[2] == s[..4][2] && s[3] == s[..4][3];
  }

  lemma WholeOfTwo(s: string, a: nat, b: nat)
    requires |s| >= 3 && (a == 3 || a == 4) && b < 10 && s[..3] == [Digit(a), Digit(b), '.']
    ensures WholeAt(s, 0, Military) == Some(Whole(10 * a + b, 3))
  {
    assert s[0] == s[..3][0] && s[1] == s[..3][1] && s[2] == s[..3][2];
  }

  /** The six digits of a number. */
  lemma SixDigits(n: nat)
    ensures n / 10 / 10 == n / 100 && n / 10 / 10 / 10 == n / 1000
    ensures n == 1000 * (n / 1000) + 100 * (n / 100 % 10) + 10 * (n / 10 % 10) + n % 10
    ensures n < 1000000 ==> n / 1000 == 100 * (n / 1000 / 10 / 10) + 10 * (n / 1000 / 10 % 10) + n / 1000 % 10
  {
  }

  /** The last two decimals decide what the number is a multiple of. */
  lemma LastTwo(khz: nat)
    ensures khz % 25 == (10 * (khz / 10 % 10) + khz % 10) % 25
  {
    SixDigits(khz);
    EndingDecides(khz / 1000, khz / 100 % 10, khz / 10 % 10, khz % 10);
  }

  lemma StartOfThree(khz: nat)
    requires 100000 <= khz < 1000000
    ensures |Spelling(khz)| == 7
    ensures Spelling(khz)[..4]
         == [Digit(khz / 1000 / 10 / 10), Digit(khz / 1000 / 10 % 10), Digit(khz / 1000 % 10), '.']
  {
    SixDigits(khz);
  }

  lemma StartOfTwo(khz: nat)
    requires 10000 <= khz < 100000
    ensures |Spelling(khz)| == 6
    ensures Spelling(khz)[..3] == [Digit(khz / 10000), Digit(khz / 1000 % 10), '.']
    ensures khz / 1000 == 10 * (khz / 10000) + khz / 1000 % 10
  {
    assert khz / 10000 == khz / 1000 / 10;
  }

  /** The megahertz of a spelling are read back. */
  lemma SpelledMegahertz(khz: nat, front: string, rest: string, pattern: Pattern)
    requires IsChannel(khz, pattern)
    requires front == Spelling(khz) || front == ShortSpelling(khz)
    ensures WholeAt(front + rest, 0, pattern) == Some(Whole(khz / 1000, |Spelling(khz)| - 3))
  {
    SixDigits(khz);
    var mhz, all, s := khz / 1000, front + rest, Spelling(khz);
    hide WholeAt, Digit, Spelling;
    if khz >= 100000 {
      StartOfThree(khz);
      assert all[..4] == s[..4];
      WholeOfThree(all, pattern, mhz / 10 / 10, mhz / 10 % 10, mhz % 10);
    } else {
      StartOfTwo(khz);
      assert all[..3] == s[..3];
      WholeOfTwo(all, khz / 10000, mhz % 10);
    }
  }

  /** The decimals of a spelling. */
  lemma SpelledEnd(khz: nat)
    requires 10000 <= khz < 1000000
    ensures Spelling(khz)[|Spelling(khz)| - 3..] == [Digit(khz / 100 % 10), Digit(khz / 10 % 10), Digit(khz % 10)]
  {
    SixDigits(khz);
  }

  lemma ShortSpelledEnd(khz: nat)
    requires 10000 <= khz < 1000000
    ensures |ShortSpelling(khz)| >= 5 && |ShortSpelling(khz)| == |Spelling(khz)| - 1
    ensures ShortSpelling(khz)[|ShortSpelling(khz)| - 2..] == [Digit(khz / 100 % 10), Digit(khz / 10 % 10)]
  {
    SpelledEnd(khz);
    hide Spelling;
    var s := Spelling(khz);
    assert ShortSpelling(khz)[|s| - 3..] == s[|s| - 3..][..2];
  }

  /** The endings of a 25 kHz frequency may be shortened. */
  lemma ShortEnds(b: nat, c: nat)
    requires b < 10 && c < 10 && (10 * b + c) % 25 == 0
    ensures ShortEnding(Digit(b)) && c == if Digit(b) == '2' || Digit(b) == '7' then 5 else 0
  {
    EndingOf25(b, c);
  }

  /** What the shortened spelling of a 25 kHz frequency stands for. */
  lemma ShortValue(khz: nat)
    requires khz % 25 == 0
    ensures var b := Digit(khz / 10 % 10);
            && ShortEnding(b)
            && khz == 1000 * (khz / 1000) + 100 * (khz / 100 % 10) + 10 * (khz / 10 % 10)
                      + if b == '2' || b == '7' then 5 else 0
  {
    SixDigits(khz);
    LastTwo(khz);
    ShortEnds(khz / 10 % 10, khz % 10);
  }

  /** A frequency with three decimals, followed by anything. */
  lemma LongSpellingThen(khz: nat, rest: string, pattern: Pattern)
    requires IsChannel(khz, pattern)
    ensures Scan(Spelling(khz) + rest, pattern) == [Found(khz, LongKind(khz))] + Scan(rest, pattern)
  {
    var s, all := Spelling(khz), Spelling(khz) + rest;
    var j := |s| - 3;
    var a, b, c := khz / 100 % 10, khz / 10 % 10, khz % 10;
    SpelledMegahertz(khz, s, rest, pattern);
    SpelledEnd(khz);
    SixDigits(khz);
    LongEndingIsTunable(khz / 1000, a, b, c);
    hide Spelling, Spell, WholeAt, MatchAt, Scan, LongEnding, LongKind, Digit, DigitValue, IsDigit, SkipBlanks;
    assert all[j] == s[j..][0] == Digit(a) && all[j + 1] == s[j..][1] == Digit(b);
    assert all[j + 2] == s[j..][2] == Digit(c);
    LongMatchThen(all, pattern, khz / 1000, j);
    MatchThenRest(s, rest, Found(khz, LongKind(khz)), pattern);
  }

  lemma ShortSpellingStands(khz: nat, rest: string, all: string, j: nat)
    requires 10000 <= khz < 1000000 && all == ShortSpelling(khz) + rest && j == |Spelling(khz)| - 3
    ensures |ShortSpelling(khz)| == j + 2 <= |all| && (rest != "" ==> all[j + 2] == rest[0])
    ensures all[j] == Digit(khz / 100 % 10) && all[j + 1] == Digit(khz / 10 % 10)
  {
    ShortSpelledEnd(khz);
    hide Spelling, ShortSpelling, Digit;
    var s := ShortSpelling(khz);
    assert all[j] == s[j..][0] && all[j + 1] == s[j..][1];
  }

  /** A 25 kHz frequency with two decimals, followed by anything but another digit. */
  lemma ShortSpellingThen(khz: nat, rest: string, pattern: Pattern)
    requires IsChannel(khz, pattern) && khz % 25 == 0
    requires rest == "" || !('0' <= rest[0] <= '9')
    ensures Scan(ShortSpelling(khz) + rest, pattern) == [Found(khz, Only25)] + Scan(rest, pattern)
  {
    var s, all, j := ShortSpelling(khz), ShortSpelling(khz) + rest, |Spelling(khz)| - 3;
    SpelledMegahertz(khz, s, rest, pattern);
    ShortValue(khz);
    ShortSpellingStands(khz, rest, all, j);
    hide Spelling, ShortSpelling, WholeAt, MatchAt, Scan, SkipBlanks, Digit, DigitValue, ShortEnding, IsChannel;
    ShortMatchThen(all, pattern, khz / 1000, j);
    MatchThenRest(s, rest, Found(khz, Only25), pattern);
  }

  /** A text without digits yields nothing. */
  lemma NoDigitsNoMatch(s: string, pattern: Pattern)
    requires NoDigits(s)
    ensures Scan(s, pattern) == []
  {
    ScanSkips(s, "", pattern);
    assert s + "" == s;
  }

  /** Wherever a frequency is spelled among other words, it is found, and then whatever the rest of the text names. */
  lemma FoundInText(before: string, khz: nat, rest: string, pattern: Pattern)
    requires NoDigits(before) && IsChannel(khz, pattern)
    ensures Scan(before + Spelling(khz) + rest, pattern) == [Found(khz, LongKind(khz))] + Scan(rest, pattern)
  {
    assert before + Spelling(khz) + rest == before + (Spelling(khz) + rest);
    ScanSkips(before, Spelling(khz) + rest, pattern);
    LongSpellingThen(khz, rest, pattern);
  }

  lemma ShortFoundInText(before: string, khz: nat, rest: string, pattern: Pattern)
    requires NoDigits(before) && IsChannel(khz, pattern) && khz % 25 == 0
    requires rest == "" || !('0' <= rest[0] <= '9')
    ensures Scan(before + ShortSpelling(khz) + rest, pattern) == [Found(khz, Only25)] + Scan(rest, pattern)
  {
    assert before + ShortSpelling(khz) + rest == before + (ShortSpelling(khz) + rest);
    ScanSkips(before, ShortSpelling(khz) + rest, pattern);
    ShortSpellingThen(khz, rest, pattern);
  }

  /** Two frequencies in one text are both found, in their order. */
  lemma TwoInText(before: string, khz: nat, between: string, other: nat, after: string, pattern: Pattern)
    requires NoDigits(before) && NoDigits(between) && NoDigits(after)
    requires IsChannel(khz, pattern) && IsChannel(other, pattern)
    ensures Scan(before + Spelling(khz) + (between + Spelling(other) + after), pattern)
         == [Found(khz, LongKind(khz)), Found(other, LongKind(other))]
  {
    FoundInText(before, khz, between + Spelling(other) + after, pattern);
    FoundInText(between, other, after, pattern);
    NoDigitsNoMatch(after, pattern);
  }

  // ---------- which radios a text serves ----------

  /** The one frequency of a text serves 8.33 kHz radios, and 25 kHz radios exactly if it is a 25 kHz frequency. */
  lemma OneLongServes(khz: nat, t: Tuning)
    ensures IsOffered([Found(khz, LongKind(khz))], t) <==> t.khz == khz && (t.spacing833 || khz % 25 == 0)
  {
    var x := Found(khz, LongKind(khz));
    assert [x][0] == x;
    assert t.khz == khz && (t.spacing833 || khz % 25 == 0) ==> Offers([x], x, t.spacing833);
  }

  /** Spelled with two decimals it serves both. */
  lemma OneShortServes(khz: nat, t: Tuning)
    ensures IsOffered([Found(khz, Only25)], t) <==> t.khz == khz
  {
    var x := Found(khz, Only25);
    assert [x][0] == x;
    assert t.khz == khz ==> Offers([x], x, t.spacing833);
  }

  /** Of frequencies spelled with two and three decimals, the first is for 25 kHz radios, the second for the others. */
  lemma ShortAndLongServe(khz: nat, other: nat, t: Tuning)
    ensures IsOffered([Found(khz, Only25), Found(other, LongKind(other))], t)
       <==> t == Tuning(khz, false) || t == Tuning(other, true)
  {
    var x, y := Found(khz, Only25), Found(other, LongKind(other));
    var found := [x, y];
    assert found[0] == x && found[1] == y;
    assert Has(found, Only25) && (Has(found, Either) || Has(found, Only833));
    assert t == Tuning(khz, false) ==> Offers(found, x, false);
    assert t == Tuning(other, true) ==> Offers(found, y, true);
  }

  /** A channel whose name spells one frequency is tuned by it, whatever its other texts and its airport say. */
  lemma NameDecides(before: string, khz: nat, after: string, topic: string, desc: string, pattern: Pattern,
                    stations: seq<nat>, t: Tuning)
    requires NoDigits(before) && NoDigits(after) && IsChannel(khz, pattern)
    ensures Tunes([before + Spelling(khz) + after, topic, desc], pattern, stations, t)
       <==> t.khz == khz && (t.spacing833 || khz % 25 == 0)
  {
    var texts := [before + Spelling(khz) + after, topic, desc];
    FoundInText(before, khz, after, pattern);
    NoDigitsNoMatch(after, pattern);
    FirstTextDecides(texts, 0, pattern);
    OneLongServes(khz, t);
  }

  /** A channel whose texts have no match is tuned by the frequencies of its airport that are in the civil band. */
  lemma AirportDecides(texts: seq<string>, pattern: Pattern, stations: seq<nat>, t: Tuning)
    requires forall s: string, k: nat :: s in texts ==> MatchAt(s, k, pattern).None?
    ensures Tunes(texts, pattern, stations, t)
       <==> t.khz in stations && 118000 <= t.khz < 137000
            && if t.spacing833 then t.khz % 5 == 0 && t.khz % 50 != 20 && t.khz % 50 != 45 else t.khz % 25 == 0
  {
    NothingIsOverlooked(texts, pattern);
  }
}
