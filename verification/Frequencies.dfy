/**
 Frequencies named in a channel's texts.  `MatchAt` is the regular expression
 of the plugin at one position, `Scan` the successive matches in one string.
 */
module Frequencies {
  import opened Options

  datatype Pattern = Civil | Military

  /** A frequency in kHz, and whether it is meant for an 8.33 kHz radio. */
  datatype Tuning = Tuning(khz: nat, spacing833: bool)

  /** Which radios the spelling of a frequency suits. */
  datatype Kind = Only25 | Either | Only833

  datatype Found = Found(khz: nat, kind: Kind)

  /** A match: what it names, and the position after its trailing blanks. */
  datatype Match = Match(found: Found, end: nat)

  /** The whole megahertz of a match and the position after the point. */
  datatype Whole = Whole(mhz: nat, next: nat)

  predicate IsDigit(c: char) {
    '0' <= c <= '9'
  }

  function DigitValue(c: char): (v: nat)
    requires IsDigit(c)
  {
    (c as int) - ('0' as int)
  }

  predicate IsBlank(c: char) {
    c == ' ' || (9 as char) <= c <= (13 as char)
  }

  function Digit(d: nat): (c: char)
    requires d < 10
    ensures IsDigit(c) && DigitValue(c) == d
  {
    ('0' as int + d) as char
  }

  function SkipBlanks(s: string, i: nat): (j: nat)
    requires i <= |s|
    ensures i <= j <= |s|
    decreases |s| - i
  {
    if i < |s| && IsBlank(s[i]) then SkipBlanks(s, i + 1) else i
  }

  /** Megahertz and decimal point: 118 to 136, or 30-49 and 100-399. */
  function WholeAt(s: string, i: nat, pattern: Pattern): (w: Option<Whole>)
    ensures w.Some? ==> i < w.value.next <= |s|
  {
    if i + 4 <= |s| && IsDigit(s[i]) && IsDigit(s[i + 1]) && IsDigit(s[i + 2]) && s[i + 3] == '.' then
      var mhz := 100 * DigitValue(s[i]) + 10 * DigitValue(s[i + 1]) + DigitValue(s[i + 2]);
      if pattern.Civil? then
        if 118 <= mhz <= 136 then Some(Whole(mhz, i + 4)) else None
      else if 100 <= mhz <= 399 then Some(Whole(mhz, i + 4)) else None
    else if pattern.Military? && i + 3 <= |s| && (s[i] == '3' || s[i] == '4') && IsDigit(s[i + 1])
        && s[i + 2] == '.' then
      Some(Whole(10 * DigitValue(s[i]) + DigitValue(s[i + 1]), i + 3))
    else None
  }

  /** The second and third decimals of an 8.33 kHz channel name. */
  predicate LongEnding(c: char, d: char) {
    IsDigit(c) && ((d == '0' && c != '2' && c != '7') || (d == '5' && c != '4' && c != '9'))
  }

  /** The second decimal of the abbreviated 25 kHz spelling. */
  predicate ShortEnding(c: char) {
    c == '0' || c == '2' || c == '5' || c == '7'
  }

  /** How a frequency of `khz` was spelled, with three decimals. */
  function LongKind(khz: nat): Kind {
    if khz % 25 != 0 then Only833 else Either
  }

  /** The match that starts at `i`; the three-decimal form is tried first. */
  function MatchAt(s: string, i: nat, pattern: Pattern): (m: Option<Match>)
    ensures m.Some? ==> i < m.value.end <= |s|
  {
    match WholeAt(s, i, pattern)
    case None => None
    case Some(Whole(mhz, j)) =>
      if j + 2 <= |s| && IsDigit(s[j]) then
        var khz := 1000 * mhz + 100 * DigitValue(s[j]);
        if j + 3 <= |s| && LongEnding(s[j + 1], s[j + 2]) then
          var long := khz + 10 * DigitValue(s[j + 1]) + DigitValue(s[j + 2]);
          Some(Match(Found(long, LongKind(long)), SkipBlanks(s, j + 3)))
        else if ShortEnding(s[j + 1]) then
          // a final 2 or 7 abbreviates 25 or 75
          var short := khz + 10 * DigitValue(s[j + 1]) + if s[j + 1] == '2' || s[j + 1] == '7' then 5 else 0;
          Some(Match(Found(short, Only25), SkipBlanks(s, j + 2)))
        else None
      else None
  }

  /** The leftmost match at or after `i`. */
  function Search(s: string, i: nat, pattern: Pattern): (m: Option<Match>)
    ensures m.Some? ==> i < m.value.end <= |s|
    decreases |s| - i
  {
    if i >= |s| then None
    else
      match MatchAt(s, i, pattern)
      case Some(m) => Some(m)
      case None => Search(s, i + 1, pattern)
  }

  /** Everything the repeated search finds in one string, in order. */
  function Scan(s: string, pattern: Pattern): seq<Found>
    decreases |s|
  {
    match Search(s, 0, pattern)
    case None => []
    case Some(m) => [m.found] + Scan(s[m.end..], pattern)
  }

  /** What the first string with a match yields. */
  function FirstScan(strs: seq<string>, pattern: Pattern): seq<Found> {
    if strs == [] then []
    else if Scan(strs[0], pattern) != [] then Scan(strs[0], pattern)
    else FirstScan(strs[1..], pattern)
  }

  // ---------- nothing is overlooked ----------

  lemma NoMatchBehind(s: string, k: nat, pattern: Pattern)
    requires k >= |s|
    ensures MatchAt(s, k, pattern).None?
  {
  }

  /** The search finds the leftmost match, and fails only if there is none. */
  lemma {:induction false} SearchIsLeftmost(s: string, i: nat, pattern: Pattern)
    ensures Search(s, i, pattern).None? <==> forall k: nat :: k >= i ==> MatchAt(s, k, pattern).None?
    ensures Search(s, i, pattern).Some? ==>
              exists k: nat :: k >= i && Search(s, i, pattern) == MatchAt(s, k, pattern)
                               && forall j: nat :: i <= j < k ==> MatchAt(s, j, pattern).None?
    decreases |s| - i
  {
    hide MatchAt;
    if i >= |s| {
      forall k: nat | k >= i ensures MatchAt(s, k, pattern).None? {
        NoMatchBehind(s, k, pattern);
      }
    } else if MatchAt(s, i, pattern).None? {
      SearchIsLeftmost(s, i + 1, pattern);
    }
  }

  lemma ScanIsEmptyIff(s: string, pattern: Pattern)
    ensures Scan(s, pattern) == [] <==> forall k: nat :: MatchAt(s, k, pattern).None?
  {
    SearchIsLeftmost(s, 0, pattern);
  }

  /** The scan of the texts yields nothing exactly if no text has a match anywhere. */
  lemma {:induction false} NothingIsOverlooked(strs: seq<string>, pattern: Pattern)
    ensures FirstScan(strs, pattern) == []
       <==> forall s: string, k: nat :: s in strs ==> MatchAt(s, k, pattern).None?
  {
    hide MatchAt, Scan;
    if strs != [] {
      ScanIsEmptyIff(strs[0], pattern);
      NothingIsOverlooked(strs[1..], pattern);
      assert forall s :: s in strs <==> s == strs[0] || s in strs[1..];
    }
  }

  /** The first text with a match decides. */
  lemma {:induction false} FirstTextDecides(strs: seq<string>, n: nat, pattern: Pattern)
    requires n < |strs| && Scan(strs[n], pattern) != []
    requires forall i :: 0 <= i < n ==> Scan(strs[i], pattern) == []
    ensures FirstScan(strs, pattern) == Scan(strs[n], pattern)
  {
    if n > 0 {
      FirstTextDecides(strs[1..], n - 1, pattern);
    }
  }

  // ---------- the rule both kinds of radio rely on ----------

  /** A frequency a 25 kHz radio can show. */
  predicate Tunable25(khz: nat) {
    khz % 25 == 0
  }

  /** A channel name of the 8.33 kHz scheme. */
  predicate Tunable833(khz: nat) {
    khz % 5 == 0 && khz % 50 != 20 && khz % 50 != 45
  }

  predicate InBand(khz: nat, pattern: Pattern) {
    match pattern
    case Civil => 118000 <= khz < 137000
    case Military => 30000 <= khz < 50000 || 100000 <= khz < 400000
  }

  ghost predicate WellFound(x: Found, pattern: Pattern) {
    && Tunable833(x.khz)
    && (Tunable25(x.khz) <==> x.kind != Only833)
    && InBand(x.khz, pattern)
  }

  lemma RestOf50(k: nat, r: nat)
    ensures (50 * k + r) % 50 == r % 50
  {
  }

  lemma RestOf25(k: nat, r: nat)
    ensures (25 * k + r) % 25 == r % 25
  {
  }

  lemma RestOf5(k: nat, r: nat)
    ensures (5 * k + r) % 5 == r % 5
  {
  }

  /** The last two decimals decide which radios a spelling suits. */
  lemma EndingDecides(mhz: nat, a: nat, b: nat, c: nat)
    ensures var khz := 1000 * mhz + 100 * a + 10 * b + c;
            && khz % 50 == (10 * b + c) % 50
            && khz % 25 == (10 * b + c) % 25
            && khz % 5 == c % 5
  {
    RestOf50(20 * mhz + 2 * a, 10 * b + c);
    RestOf25(40 * mhz + 4 * a, 10 * b + c);
    RestOf5(200 * mhz + 20 * a + 2 * b, c);
  }

  /** The endings the long spelling allows are those of the 8.33 kHz scheme. */
  lemma LongEndingIsTunable(mhz: nat, a: nat, b: nat, c: nat)
    requires b < 10 && c < 10
    ensures Tunable833(1000 * mhz + 100 * a + 10 * b + c) <==> LongEnding(Digit(b), Digit(c))
  {
    EndingDecides(mhz, a, b, c);
    var e := 10 * b + c;
    assert e % 50 == if b < 5 then e else e - 50;
  }

  lemma ShortEndingIsTunable(mhz: nat, a: nat, b: nat)
    requires b == 0 || b == 2 || b == 5 || b == 7
    ensures var khz := 1000 * mhz + 100 * a + 10 * b + if b == 2 || b == 7 then 5 else 0;
            Tunable833(khz) && Tunable25(khz)
  {
    EndingDecides(mhz, a, b, if b == 2 || b == 7 then 5 else 0);
  }

  lemma MatchIsWellFound(s: string, i: nat, pattern: Pattern)
    requires MatchAt(s, i, pattern).Some?
    ensures WellFound(MatchAt(s, i, pattern).value.found, pattern)
  {
    var Whole(mhz, j) := WholeAt(s, i, pattern).value;
    var a, b := DigitValue(s[j]), DigitValue(s[j + 1]);
    if j + 3 <= |s| && LongEnding(s[j + 1], s[j + 2]) {
      var c := DigitValue(s[j + 2]);
      assert s[j + 1] == Digit(b) && s[j + 2] == Digit(c);
      LongEndingIsTunable(mhz, a, b, c);
    } else {
      ShortEndingIsTunable(mhz, a, b);
    }
  }

  lemma {:induction false} SearchIsWellFound(s: string, i: nat, pattern: Pattern)
    requires Search(s, i, pattern).Some?
    ensures WellFound(Search(s, i, pattern).value.found, pattern)
    decreases |s| - i
  {
    if MatchAt(s, i, pattern).Some? {
      MatchIsWellFound(s, i, pattern);
    } else {
      SearchIsWellFound(s, i + 1, pattern);
    }
  }

  lemma {:induction false} ScanIsWellFound(s: string, pattern: Pattern, x: Found)
    requires x in Scan(s, pattern)
    ensures WellFound(x, pattern)
    decreases |s|
  {
    var m := Search(s, 0, pattern).value;
    if x == m.found {
      SearchIsWellFound(s, 0, pattern);
    } else {
      ScanIsWellFound(s[m.end..], pattern, x);
    }
  }

  lemma {:induction false} FirstScanIsWellFound(strs: seq<string>, pattern: Pattern, x: Found)
    requires x in FirstScan(strs, pattern)
    ensures WellFound(x, pattern)
  {
    if Scan(strs[0], pattern) != [] {
      ScanIsWellFound(strs[0], pattern, x);
    } else {
      FirstScanIsWellFound(strs[1..], pattern, x);
    }
  }

  // ---------- spelling a frequency and finding it again ----------

  /** The three-decimal spelling, as in 121.505. */
  function Spell(khz: nat): (s: string)
    requires 100000 <= khz < 1000000
    ensures |s| == 7
  {
    var tens := khz / 10;
    var hundreds := tens / 10;
    var mhz := hundreds / 10;
    [Digit(mhz / 10 / 10), Digit(mhz / 10 % 10), Digit(mhz % 10), '.',
     Digit(hundreds % 10), Digit(tens % 10), Digit(khz % 10)]
  }

  lemma SpelledWhole(khz: nat, mhz: nat)
    requires InBand(khz, Civil) && mhz == khz / 10 / 10 / 10
    ensures WholeAt(Spell(khz), 0, Civil) == Some(Whole(mhz, 4))
    ensures WholeAt(Spell(khz)[..6], 0, Civil) == Some(Whole(mhz, 4))
  {
    var s := Spell(khz);
    assert mhz == 100 * DigitValue(s[0]) + 10 * DigitValue(s[1]) + DigitValue(s[2]);
  }

  /** A match that uses up the whole string is its only one. */
  lemma WholeStringIsOneMatch(s: string, pattern: Pattern, x: Found)
    requires |s| > 0 && MatchAt(s, 0, pattern) == Some(Match(x, |s|))
    ensures Scan(s, pattern) == [x]
  {
    assert s[|s|..] == [];
    assert Search(s, 0, pattern) == MatchAt(s, 0, pattern);
    assert Scan(s[|s|..], pattern) == [];
  }

  lemma LongMatch(s: string, pattern: Pattern, mhz: nat)
    requires |s| == 7 && WholeAt(s, 0, pattern) == Some(Whole(mhz, 4)) && IsDigit(s[4]) && LongEnding(s[5], s[6])
    ensures var khz := 1000 * mhz + 100 * DigitValue(s[4]) + 10 * DigitValue(s[5]) + DigitValue(s[6]);
            MatchAt(s, 0, pattern) == Some(Match(Found(khz, LongKind(khz)), 7))
  {
  }

  lemma ShortMatch(s: string, pattern: Pattern, mhz: nat)
    requires |s| == 6 && WholeAt(s, 0, pattern) == Some(Whole(mhz, 4)) && IsDigit(s[4]) && ShortEnding(s[5])
    ensures var khz := 1000 * mhz + 100 * DigitValue(s[4]) + 10 * DigitValue(s[5]);
            MatchAt(s, 0, pattern)
            == Some(Match(Found(if s[5] == '2' || s[5] == '7' then khz + 5 else khz, Only25), 6))
  {
  }

  /** The decimals of a frequency. */
  lemma Decimals(khz: nat)
    ensures var mhz, a, b, c := khz / 10 / 10 / 10, khz / 10 / 10 % 10, khz / 10 % 10, khz % 10;
            khz == 1000 * mhz + 100 * a + 10 * b + c
  {
  }

  lemma SpelledDecimals(khz: nat)
    requires 100000 <= khz < 1000000
    ensures Spell(khz)[4..] == [Digit(khz / 10 / 10 % 10), Digit(khz / 10 % 10), Digit(khz % 10)]
  {
  }

  /** Every 8.33 kHz channel of the civil band is found under its own name. */
  lemma SpelledIsFound(khz: nat)
    requires InBand(khz, Civil) && Tunable833(khz)
    ensures Scan(Spell(khz), Civil) == [Found(khz, LongKind(khz))]
  {
    var mhz, a, b, c := khz / 10 / 10 / 10, khz / 10 / 10 % 10, khz / 10 % 10, khz % 10;
    SpelledWhole(khz, mhz);
    EndingDecides(mhz, a, b, c);
    LongEndingIsTunable(mhz, a, b, c);
    SpelledDecimals(khz);
    Decimals(khz);
    hide Spell, WholeAt, MatchAt, Scan, Tunable833, LongEnding, LongKind, Digit, DigitValue, IsDigit;
    var s := Spell(khz);
    assert s[4] == s[4..][0] == Digit(a) && s[5] == s[4..][1] == Digit(b) && s[6] == s[4..][2] == Digit(c);
    LongMatch(s, Civil, mhz);
    WholeStringIsOneMatch(s, Civil, Found(khz, LongKind(khz)));
  }

  lemma EndingOf25(b: nat, c: nat)
    requires b < 10 && c < 10 && (10 * b + c) % 25 == 0
    ensures (b == 0 && c == 0) || (b == 2 && c == 5) || (b == 5 && c == 0) || (b == 7 && c == 5)
  {
    var e := 10 * b + c;
    assert e == 25 * (e / 25) && e / 25 < 4;
  }

  /** Dropping the third decimal of a 25 kHz frequency still names it. */
  lemma ShortSpellingIsFound(khz: nat)
    requires InBand(khz, Civil) && Tunable25(khz)
    ensures Scan(Spell(khz)[..6], Civil) == [Found(khz, Only25)]
  {
    var mhz, a, b, c := khz / 10 / 10 / 10, khz / 10 / 10 % 10, khz / 10 % 10, khz % 10;
    SpelledWhole(khz, mhz);
    EndingDecides(mhz, a, b, c);
    EndingOf25(b, c);
    SpelledDecimals(khz);
    Decimals(khz);
    hide Spell, WholeAt, MatchAt, Scan, Tunable25;
    var s := Spell(khz)[..6];
    assert s[4] == Spell(khz)[4..][0] == Digit(a) && s[5] == Spell(khz)[4..][1] == Digit(b);
    ShortMatch(s, Civil, mhz);
    WholeStringIsOneMatch(s, Civil, Found(khz, Only25));
  }

  // ---------- the extraction ----------

  ghost predicate Has(found: seq<Found>, kind: Kind) {
    exists x :: x in found && x.kind == kind
  }

  /** When a found frequency is offered to a radio with the given spacing. */
  ghost predicate Offers(found: seq<Found>, x: Found, spacing833: bool) {
    x in found &&
    if spacing833
    then x.kind != Only25 || !(Has(found, Either) || Has(found, Only833))
    else x.kind == Only25 || (x.kind == Either && !Has(found, Only25))
  }

  ghost predicate IsOffered(found: seq<Found>, t: Tuning) {
    exists x: Found :: x.khz == t.khz && Offers(found, x, t.spacing833)
  }

  /** An 8.33 radio is served by any match, a 25 kHz radio unless all were 8.33-only. */
  lemma WhoIsServed(found: seq<Found>)
    ensures (exists t: Tuning :: t.spacing833 && IsOffered(found, t)) <==> found != []
    ensures (exists t: Tuning :: !t.spacing833 && IsOffered(found, t))
       <==> (exists x :: x in found && x.kind != Only833)
  {
    if found != [] {
      var x := if Has(found, Either) then (var y :| y in found && y.kind == Either; y)
               else if Has(found, Only833) then (var y :| y in found && y.kind == Only833; y)
               else found[0];
      assert Offers(found, x, true);
      assert IsOffered(found, Tuning(x.khz, true));
    }
    if exists x :: x in found && x.kind != Only833 {
      var z :| z in found && z.kind != Only833;
      var x := if Has(found, Only25) then (var y :| y in found && y.kind == Only25; y) else z;
      assert Offers(found, x, false);
      assert IsOffered(found, Tuning(x.khz, false));
    }
  }

  /** The frequencies of one kind. */
  function OfKind(found: seq<Found>, kind: Kind): (ks: seq<nat>)
    ensures forall k :: k in ks <==> Found(k, kind) in found
  {
    if found == [] then []
    else (if found[0].kind == kind then [found[0].khz] else []) + OfKind(found[1..], kind)
  }

  /** Moving one more match into the collected list loses nothing. */
  lemma CollectStep(done: seq<nat>, x: Found, tail: seq<Found>, kind: Kind)
    ensures (if x.kind == kind then done + [x.khz] else done) + OfKind(tail, kind)
         == done + OfKind([x] + tail, kind)
  {
    assert ([x] + tail)[1..] == tail;
  }

  /** Appends every listed frequency for one radio spacing. */
  method PushAll(frequency: seq<Tuning>, khzs: seq<nat>, spacing833: bool) returns (r: seq<Tuning>)
    ensures forall t :: t in r <==> t in frequency || (t.spacing833 == spacing833 && t.khz in khzs)
    ensures |r| == |frequency| + |khzs|
  {
    r := frequency;
    for i := 0 to |khzs|
      invariant forall t :: t in r <==> t in frequency || (t.spacing833 == spacing833 && t.khz in khzs[..i])
      invariant |r| == |frequency| + i
    {
      r := r + [Tuning(khzs[i], spacing833)];
      assert khzs[..i + 1] == khzs[..i] + [khzs[i]];
    }
    assert khzs[..|khzs|] == khzs;
  }

  /** The search loop over one string: its matches by kind, in order. */
  method CollectMatches(str: string, pattern: Pattern)
    returns (freq25: seq<nat>, freq25or833: seq<nat>, freq833: seq<nat>)
    ensures freq25 == OfKind(Scan(str, pattern), Only25)
    ensures freq25or833 == OfKind(Scan(str, pattern), Either)
    ensures freq833 == OfKind(Scan(str, pattern), Only833)
  {
    freq25, freq25or833, freq833 := [], [], [];
    var rest := str;
    var matched := Search(rest, 0, pattern);
    while matched.Some?
      invariant matched == Search(rest, 0, pattern)
      invariant freq25 + OfKind(Scan(rest, pattern), Only25) == OfKind(Scan(str, pattern), Only25)
      invariant freq25or833 + OfKind(Scan(rest, pattern), Either) == OfKind(Scan(str, pattern), Either)
      invariant freq833 + OfKind(Scan(rest, pattern), Only833) == OfKind(Scan(str, pattern), Only833)
      decreases |rest|
    {
      var x := matched.value.found;
      ghost var was25, wasEither, was833 := freq25, freq25or833, freq833;
      match x.kind {
        case Only25 => freq25 := freq25 + [x.khz];
        case Only833 => freq833 := freq833 + [x.khz];
        case Either => freq25or833 := freq25or833 + [x.khz];
      }
      ghost var tail := Scan(rest[matched.value.end..], pattern);
      assert Scan(rest, pattern) == [x] + tail;
      CollectStep(was25, x, tail, Only25);
      CollectStep(wasEither, x, tail, Either);
      CollectStep(was833, x, tail, Only833);
      rest := rest[matched.value.end..];
      matched := Search(rest, 0, pattern);
    }
  }

  lemma OfferedIsTunable(s: string, pattern: Pattern, t: Tuning)
    requires IsOffered(Scan(s, pattern), t)
    ensures InBand(t.khz, pattern) && if t.spacing833 then Tunable833(t.khz) else Tunable25(t.khz)
  {
    var x: Found :| x.khz == t.khz && Offers(Scan(s, pattern), x, t.spacing833);
    ScanIsWellFound(s, pattern, x);
  }

  lemma NothingToOffer()
    ensures forall t :: !IsOffered([], t)
  {
  }

  /** Frequencies of the first text that names any, for each kind of radio. */
  method GetFrequenciesFromStrings(strs: seq<string>, pattern: Pattern) returns (frequency: seq<Tuning>)
    ensures forall t :: t in frequency <==> IsOffered(FirstScan(strs, pattern), t)
    ensures frequency == [] <==> FirstScan(strs, pattern) == []
    ensures frequency == [] <==> forall s: string, k: nat :: s in strs ==> MatchAt(s, k, pattern).None?
    ensures forall t :: t in frequency ==>
              InBand(t.khz, pattern) && if t.spacing833 then Tunable833(t.khz) else Tunable25(t.khz)
  {
    NothingIsOverlooked(strs, pattern);
    NothingToOffer();
    hide MatchAt, Scan, IsOffered, InBand, Tunable833, Tunable25;
    frequency := [];
    var i := 0;
    while i < |strs|
      invariant 0 <= i <= |strs| && frequency == []
      invariant FirstScan(strs[i..], pattern) == FirstScan(strs, pattern)
    {
      var freq25, freq25or833, freq833 := CollectMatches(strs[i], pattern);
      frequency := PushAll(frequency, freq25, false);
      if freq25or833 == [] && freq833 == [] {
        frequency := PushAll(frequency, freq25, true);
      }
      frequency := PushAll(frequency, freq25or833, true);
      if freq25 == [] {
        frequency := PushAll(frequency, freq25or833, false);
      }
      frequency := PushAll(frequency, freq833, true);
      ghost var found := Scan(strs[i], pattern);
      KindsEmpty(found, freq25, freq25or833, freq833);
      if |frequency| > 0 {
        assert FirstScan(strs, pattern) == found;
        PushedIsOffered(found, frequency, freq25, freq25or833, freq833);
        forall t | t in frequency
          ensures InBand(t.khz, pattern) && if t.spacing833 then Tunable833(t.khz) else Tunable25(t.khz)
        {
          OfferedIsTunable(strs[i], pattern, t);
        }
        return;
      }
      assert strs[i..][1..] == strs[i + 1..];
      i := i + 1;
    }
  }

  lemma KindsEmpty(found: seq<Found>, freq25: seq<nat>, freq25or833: seq<nat>, freq833: seq<nat>)
    requires freq25 == OfKind(found, Only25) && freq25or833 == OfKind(found, Either)
        && freq833 == OfKind(found, Only833)
    ensures freq25 == [] <==> !Has(found, Only25)
    ensures freq25or833 == [] <==> !Has(found, Either)
    ensures freq833 == [] <==> !Has(found, Only833)
    ensures freq25 == [] && freq25or833 == [] && freq833 == [] <==> found == []
  {
    assert freq25 != [] ==> freq25[0] in freq25;
    assert freq25or833 != [] ==> freq25or833[0] in freq25or833;
    assert freq833 != [] ==> freq833[0] in freq833;
    forall x | x in found ensures x.khz in OfKind(found, x.kind) {
      assert Found(x.khz, x.kind) == x;
    }
    if found != [] {
      assert found[0] in found;
    }
  }

  lemma PushedIsOffered(found: seq<Found>, frequency: seq<Tuning>,
                        freq25: seq<nat>, freq25or833: seq<nat>, freq833: seq<nat>)
    requires freq25 == OfKind(found, Only25) && freq25or833 == OfKind(found, Either)
        && freq833 == OfKind(found, Only833)
    requires forall t :: t in frequency <==>
               || (!t.spacing833 && t.khz in freq25)
               || (t.spacing833 && t.khz in freq25 && freq25or833 == [] && freq833 == [])
               || (t.spacing833 && t.khz in freq25or833)
               || (!t.spacing833 && t.khz in freq25or833 && freq25 == [])
               || (t.spacing833 && t.khz in freq833)
    ensures forall t :: t in frequency <==> IsOffered(found, t)
  {
    KindsEmpty(found, freq25, freq25or833, freq833);
    forall t ensures t in frequency <==> IsOffered(found, t) {
      if t in frequency {
        var kind := if t.khz in freq25 && (!t.spacing833 || (freq25or833 == [] && freq833 == [])) then Only25
                    else if t.khz in freq25or833 && (t.spacing833 || freq25 == []) then Either else Only833;
        assert Offers(found, Found(t.khz, kind), t.spacing833);
      }
      if IsOffered(found, t) {
        var x: Found :| x.khz == t.khz && Offers(found, x, t.spacing833);
        assert Found(x.khz, x.kind) == x;
      }
    }
  }

  /** Frequencies of the airport database, used when the texts name none. */
  method DatabaseFrequencies(stations: seq<nat>) returns (frequency: seq<Tuning>)
    ensures forall t :: t in frequency <==>
              t.khz in stations && InBand(t.khz, Civil) && if t.spacing833 then Tunable833(t.khz) else Tunable25(t.khz)
  {
    frequency := [];
    for i := 0 to |stations|
      invariant forall t :: t in frequency <==>
                  t.khz in stations[..i] && InBand(t.khz, Civil)
                      && if t.spacing833 then Tunable833(t.khz) else Tunable25(t.khz)
    {
      var khz := stations[i];
      if khz >= 118000 && khz < 137000 {
        var freq25 := khz % 25 == 0;
        var freq833 := khz % 5 == 0 && khz % 50 != 20 && khz % 50 != 45;
        if freq25 { frequency := frequency + [Tuning(khz, false)]; }
        if freq833 { frequency := frequency + [Tuning(khz, true)]; }
      }
      assert stations[..i + 1] == stations[..i] + [stations[i]];
    }
    assert stations[..|stations|] == stations;
  }

  /** What a channel is tuned by: its texts first, the airport database else. */
  ghost predicate Tunes(texts: seq<string>, pattern: Pattern, stations: seq<nat>, t: Tuning) {
    if FirstScan(texts, pattern) != [] then IsOffered(FirstScan(texts, pattern), t)
    else t.khz in stations && InBand(t.khz, Civil) && if t.spacing833 then Tunable833(t.khz) else Tunable25(t.khz)
  }

  method ChannelFrequencies(texts: seq<string>, pattern: Pattern, stations: seq<nat>) returns (frequency: seq<Tuning>)
    ensures forall t :: t in frequency <==> Tunes(texts, pattern, stations, t)
    ensures forall t :: t in frequency ==> t.khz > 0 && if t.spacing833 then Tunable833(t.khz) else Tunable25(t.khz)
  {
    frequency := GetFrequenciesFromStrings(texts, pattern);
    if |frequency| == 0 && |stations| > 0 {
      frequency := DatabaseFrequencies(stations);
    }
  }
}
