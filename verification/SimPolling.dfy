/**
 The polling loop: each pass samples the simulator, refreshes the cached radio
 state, and tells the plugin when something changed.
 */
module SimPolling {
  import opened Options
  import opened ChannelTables

  const WORD_LIMIT: nat := 0x1_0000
  const DWORD_LIMIT: nat := 0x1_0000_0000

  /** The value that marks a cached field as not in use. */
  const UNUSED: nat := 0xFFFF_FFFF

  /** What the simulator reports for one radio. */
  datatype RadioSample = RadioSample(active25: nat, standby25: nat, active833: nat, standby833: nat, capable: nat)

  /** The simulators that are treated specially, found out when the link is opened. */
  datatype SimKind = SimKind(isXPlane: bool, isP3D5: bool)

  /** What one successful poll brings, with the configuration at that moment. */
  datatype Sample = Sample(com1: RadioSample, com2: RadioSample, radioSwitch: nat, onGround: nat, position: Position,
                           force833: bool, force25: bool)

  predicate InWidth(r: RadioSample) {
    && r.active25 < WORD_LIMIT && r.standby25 < WORD_LIMIT
    && r.active833 < DWORD_LIMIT && r.standby833 < DWORD_LIMIT
  }

  /** What is cached of one radio: its spacing, the readings in both spacings, and its capability byte. */
  datatype RadioCache = RadioCache(is833: bool, freq: nat, sby: nat, freq833: nat, sby833: nat, capable: nat)

  /** What counts of a radio's reading: its spacing, the frequencies in that spacing, and its capability byte. */
  datatype Effective = Effective(is833: bool, active: nat, standby: nat, capable: nat)

  function EffectiveOf(is833: bool, r: RadioSample): Effective {
    if is833 then Effective(true, r.active833, r.standby833, r.capable)
    else Effective(false, r.active25, r.standby25, r.capable)
  }

  /** One radio's share of the comparison in the loop: the new cache, and whether a change was noticed. */
  function Refresh(c: RadioCache, is833: bool, r: RadioSample): (RadioCache, bool) {
    var changed := if is833 then r.active833 != c.freq833 || r.standby833 != c.sby833
                   else r.active25 != c.freq || r.standby25 != c.sby;
    // the spacing not in use is marked, so that a change of spacing is noticed
    (if is833 then RadioCache(true, UNUSED, UNUSED, r.active833, r.standby833, r.capable)
     else RadioCache(false, r.active25, r.standby25, UNUSED, UNUSED, r.capable),
     changed || c.capable != r.capable)
  }

  /** The cache holds exactly this, and marks the other spacing as unused. */
  predicate Holds(c: RadioCache, e: Effective) {
    if e.is833 then c == RadioCache(true, UNUSED, UNUSED, e.active, e.standby, e.capable)
    else
      && c == RadioCache(false, e.active, e.standby, UNUSED, UNUSED, e.capable)
      && e.active < WORD_LIMIT && e.standby < WORD_LIMIT
  }

  /** A switch to 8.33 kHz at a moment when both readings look unused, and nothing else changes. */
  predicate SilentSwitch(before: Effective, now: Effective) {
    !before.is833 && now.is833 && now.active == UNUSED && now.standby == UNUSED && now.capable == before.capable
  }

  /** A change is noticed exactly if the effective reading differs, but for a silent switch. */
  lemma RefreshNotices(c: RadioCache, before: Effective, is833: bool, r: RadioSample)
    requires Holds(c, before) && InWidth(r)
    ensures var now := EffectiveOf(is833, r);
            && Holds(Refresh(c, is833, r).0, now)
            && (Refresh(c, is833, r).1 <==> now != before && !SilentSwitch(before, now))
  {
  }

  /** A switch of spacing that goes unnoticed. */
  lemma SilentSwitchGoesUnnoticed(c: RadioCache)
    ensures var r := RadioSample(0x1850, 0x1850, UNUSED, UNUSED, 1);
            var before := EffectiveOf(false, r);
            var cached := Refresh(c, false, r).0;
            && Holds(cached, before) && InWidth(r) && EffectiveOf(true, r) != before
            && !Refresh(cached, true, r).1
  {
  }

  // ---------- what the plugin is told ----------

  /** A radio as reported: its frequencies in kHz and its spacing. */
  datatype RadioFields = RadioFields(freq: nat, sby: nat, is833: bool)

  datatype SimComData = SimComData(com1: RadioFields, com2: RadioFields, selectedCom: nat, blWoW: bool,
                                   position: Position, blComChanged: bool, blPosChanged: bool, blOtherChanged: bool)

  /** The part of the report that decides which channel to move to, and the weight-on-wheels flag. */
  datatype Tuned = Tuned(com1: RadioFields, com2: RadioFields, selectedCom: nat, blWoW: bool)

  function TunedOf(d: SimComData): Tuned {
    Tuned(d.com1, d.com2, d.selectedCom, d.blWoW)
  }

  /** A 25 kHz reading: four coded digits after the leading 1, and the last digit that is not coded. */
  function Decode25(bcd: nat): nat {
    var khz := 100000 + 10000 * (bcd / 0x1000 % 16) + 1000 * (bcd / 0x100 % 16) + 100 * (bcd / 0x10 % 16)
        + 10 * (bcd % 16);
    if khz % 50 == 20 then khz + 5 else khz
  }

  function FieldsOf(c: RadioCache): RadioFields {
    if c.is833 then RadioFields(c.freq833 / 1000, c.sby833 / 1000, true)
    else RadioFields(Decode25(c.freq), Decode25(c.sby), false)
  }

  /** 0, 1, 2 or 3 for none, Com1, Com2 or both; X-Plane reports the switches inverted. */
  function SelectedCom(radioSwitch: nat, isXPlane: bool): nat {
    var bit1, bit2 := radioSwitch / 0x80 % 2 == 1, radioSwitch / 0x40 % 2 == 1;
    (if bit1 != isXPlane then 1 else 0) + (if bit2 != isXPlane then 2 else 0)
  }

  /** Everything about the radios that a poll compares with the one before. */
  datatype Reading = Reading(com1: Effective, com2: Effective, radioSwitch: nat)

  predicate Is833(kind: SimKind, s: Sample, r: RadioSample) {
    (kind.isXPlane || r.capable != 0 || kind.isP3D5 || s.force833) && !s.force25
  }

  function ReadingOf(kind: SimKind, s: Sample): Reading {
    Reading(EffectiveOf(Is833(kind, s, s.com1), s.com1), EffectiveOf(Is833(kind, s, s.com2), s.com2), s.radioSwitch)
  }

  /** The readings are as wide as the simulator's fields. */
  predicate Measured(s: Sample) {
    InWidth(s.com1) && InWidth(s.com2)
  }

  /** Neither radio has the mark of an unused field in both its 8.33 kHz readings. */
  predicate Plausible(s: Sample) {
    && (s.com1.active833 != UNUSED || s.com1.standby833 != UNUSED)
    && (s.com2.active833 != UNUSED || s.com2.standby833 != UNUSED)
  }

  predicate SameOrSilent(before: Effective, now: Effective) {
    now == before || SilentSwitch(before, now)
  }

  /** Nothing has changed but one radio, or both, by a silent switch. */
  predicate Missed(before: Reading, now: Reading) {
    && now != before && now.radioSwitch == before.radioSwitch
    && SameOrSilent(before.com1, now.com1) && SameOrSilent(before.com2, now.com2)
  }

  function EffectiveFields(e: Effective): RadioFields {
    if e.is833 then RadioFields(e.active / 1000, e.standby / 1000, true)
    else RadioFields(Decode25(e.active), Decode25(e.standby), false)
  }

  /** What the plugin should be told after a poll with this reading. */
  function TunedBy(kind: SimKind, reading: Reading, onGround: nat): Tuned {
    Tuned(EffectiveFields(reading.com1), EffectiveFields(reading.com2),
          SelectedCom(reading.radioSwitch, kind.isXPlane), onGround != 0)
  }

  /** Cached radios and switch that amount to this reading. */
  ghost predicate Cached(com1: RadioCache, com2: RadioCache, radioSwitch: nat, reading: Reading) {
    Holds(com1, reading.com1) && Holds(com2, reading.com2) && radioSwitch == reading.radioSwitch
  }

  /** Whatever was cached before, a refresh caches the new reading. */
  lemma RefreshCaches(com1: RadioCache, com2: RadioCache, kind: SimKind, s: Sample)
    requires Measured(s)
    ensures Cached(Refresh(com1, Is833(kind, s, s.com1), s.com1).0, Refresh(com2, Is833(kind, s, s.com2), s.com2).0,
                   s.radioSwitch, ReadingOf(kind, s))
  {
  }

  /** The comparisons of a poll notice a change exactly if the reading differs by more than silent switches. */
  lemma ComparisonIsExact(com1: RadioCache, com2: RadioCache, radioSwitch: nat, before: Reading, kind: SimKind,
                          s: Sample)
    requires Cached(com1, com2, radioSwitch, before) && Measured(s)
    ensures (|| Refresh(com1, Is833(kind, s, s.com1), s.com1).1 || Refresh(com2, Is833(kind, s, s.com2), s.com2).1
             || s.radioSwitch != radioSwitch)
            <==> ReadingOf(kind, s) != before && !Missed(before, ReadingOf(kind, s))
  {
    RefreshNotices(com1, before.com1, Is833(kind, s, s.com1), s.com1);
    RefreshNotices(com2, before.com2, Is833(kind, s, s.com2), s.com2);
  }

  /** Who was told the one reading knows the other, but for missed changes. */
  predicate Knows(told: Reading, now: Reading) {
    now == told || Missed(told, now)
  }

  /** Missed changes add up to a missed change. */
  lemma MissedAddUp(told: Reading, before: Reading, now: Reading)
    requires Knows(told, before) && Knows(before, now)
    ensures Knows(told, now)
  {
  }

  /** A missed change makes what was told wrong, and leaves a mark in the sample. */
  lemma MissedShows(told: Reading, kind: SimKind, s: Sample, onGround: nat)
    requires Missed(told, ReadingOf(kind, s))
    ensures TunedBy(kind, told, onGround) != TunedBy(kind, ReadingOf(kind, s), onGround)
    ensures !Plausible(s)
  {
  }

  /** The last report says what the reading that was told means; the present one differs by missed changes at most. */
  ghost predicate Informs(reports: seq<SimComData>, told: Option<Reading>, kind: SimKind, onGround: nat, now: Reading) {
    && reports != [] && told.Some? && TunedOf(reports[|reports| - 1]) == TunedBy(kind, told.value, onGround)
    && Knows(told.value, now)
  }

  lemma StaysInformed(reports: seq<SimComData>, told: Option<Reading>, kind: SimKind, onGround: nat,
                      before: Reading, now: Reading)
    requires Informs(reports, told, kind, onGround, before) && Knows(before, now)
    ensures Informs(reports, told, kind, onGround, now)
  {
    MissedAddUp(told.value, before, now);
  }

  // ---------- the report against the sample ----------

  /** The switch as a byte: its two highest bits select the radios, and X-Plane has them inverted. */
  lemma SwitchSelects(com1: bool, com2: bool, low: nat, isXPlane: bool)
    requires low < 0x40
    ensures var radioSwitch := (if com1 then 0x80 else 0) + (if com2 then 0x40 else 0) + low;
            var first, second := com1 != isXPlane, com2 != isXPlane;
            SelectedCom(radioSwitch, isXPlane)
            == if first && second then 3 else if second then 2 else if first then 1 else 0
  {
  }

  /** How the simulator codes a frequency of a 25 kHz radio: four decimal digits, from the tens of megahertz on. */
  function Encode25(khz: nat): nat {
    0x1000 * (khz / 10000 % 10) + 0x100 * (khz / 1000 % 10) + 0x10 * (khz / 100 % 10) + khz / 10 % 10
  }

  lemma CodedDigits(a: nat, b: nat, c: nat, d: nat)
    requires a < 10 && b < 10 && c < 10 && d < 10
    ensures var bcd := 0x1000 * a + 0x100 * b + 0x10 * c + d;
            bcd / 0x1000 % 16 == a && bcd / 0x100 % 16 == b && bcd / 0x10 % 16 == c && bcd % 16 == d
  {
    var bcd := 0x1000 * a + 0x100 * b + 0x10 * c + d;
    assert bcd == 0x1000 * a + (0x100 * b + 0x10 * c + d) && 0x100 * b + 0x10 * c + d < 0x1000;
    assert bcd == 0x100 * (16 * a + b) + (0x10 * c + d) && 0x10 * c + d < 0x100;
    assert bcd == 0x10 * (16 * (16 * a + b) + c) + d && d < 0x10;
  }

  lemma DecimalDigits(khz: nat)
    ensures khz == 10000 * (khz / 10000) + 1000 * (khz / 1000 % 10) + 100 * (khz / 100 % 10) + 10 * (khz / 10 % 10)
                   + khz % 10
  {
    assert khz / 100 == khz / 10 / 10;
    assert khz / 1000 == khz / 100 / 10;
    assert khz / 10000 == khz / 1000 / 10;
  }

  /** The last digit of a 25 kHz frequency is 0 or 5, and follows from the others. */
  lemma LastDigit(khz: nat)
    requires khz % 25 == 0
    ensures khz % 10 == if (khz - khz % 10) % 50 == 20 then 5 else 0
  {
    var n := khz / 25;
    if n % 2 == 0 {
      assert khz == 10 * (5 * (n / 2));
      assert khz % 10 == 0 && khz == 50 * (n / 2);
    } else {
      assert khz == 10 * (5 * (n / 2) + 2) + 5;
      assert khz % 10 == 5 && khz - 5 == 50 * (n / 2) + 20;
    }
  }

  lemma DecodedDigits(khz: nat, a: nat, b: nat, c: nat, d: nat, e: nat)
    requires a < 10 && b < 10 && c < 10 && d < 10 && e == khz % 10
    requires khz == 100000 + 10000 * a + 1000 * b + 100 * c + 10 * d + e && khz % 25 == 0
    ensures Decode25(0x1000 * a + 0x100 * b + 0x10 * c + d) == khz
  {
    LastDigit(khz);
    CodedDigits(a, b, c, d);
  }

  lemma LeadingDigit(khz: nat)
    requires 100000 <= khz < 200000
    ensures khz / 10000 == 10 + khz / 10000 % 10
  {
  }

  /** Every 25 kHz frequency of a radio is decoded as itself, though its last digit is not coded. */
  lemma CodedIsDecoded(khz: nat)
    requires 100000 <= khz < 200000 && khz % 25 == 0
    ensures Decode25(Encode25(khz)) == khz
  {
    var a, b, c, d, e := khz / 10000 % 10, khz / 1000 % 10, khz / 100 % 10, khz / 10 % 10, khz % 10;
    DecimalDigits(khz);
    LeadingDigit(khz);
    DecodedDigits(khz, a, b, c, d, e);
    hide Decode25;
  }

  /** A radio as the plugin is told of it. */
  predicate ShowsRadio(fields: RadioFields, r: RadioSample, is833: bool) {
    fields == if is833 then RadioFields(r.active833 / 1000, r.standby833 / 1000, true)
              else RadioFields(Decode25(r.active25), Decode25(r.standby25), false)
  }

  /** A report, field by field, against the sample of the poll that made it and the three changes it was made for. */
  predicate ReportsSample(d: SimComData, kind: SimKind, s: Sample, com: bool, pos: bool, other: bool) {
    && ShowsRadio(d.com1, s.com1, !s.force25 && (kind.isXPlane || s.com1.capable != 0 || kind.isP3D5 || s.force833))
    && ShowsRadio(d.com2, s.com2, !s.force25 && (kind.isXPlane || s.com2.capable != 0 || kind.isP3D5 || s.force833))
    && d.selectedCom == SelectedCom(s.radioSwitch, kind.isXPlane)
    && d.blWoW == (s.onGround != 0) && d.position == s.position
    && d.blComChanged == com && d.blPosChanged == pos && d.blOtherChanged == other
  }

  /** What is built from cached readings of a sample reports it. */
  lemma CachedReports(kind: SimKind, s: Sample, com1: RadioCache, com2: RadioCache, com: bool, pos: bool, other: bool)
    requires Cached(com1, com2, s.radioSwitch, ReadingOf(kind, s))
    ensures ReportsSample(SimComData(FieldsOf(com1), FieldsOf(com2), SelectedCom(s.radioSwitch, kind.isXPlane),
                                     s.onGround != 0, s.position, com, pos, other),
                          kind, s, com, pos, other)
  {
  }

  /** One pass of the loop: what opening the link would find, and what the poll brings. */
  datatype Pass = Pass(link: Option<SimKind>, answer: Option<Sample>)

  class FsuipcWrapper {
    // whether two positions are more than half a nautical mile apart
    const far: (Position, Position) -> bool

    var cFSUIPCConnected: bool
    var kind: SimKind
    var com1: RadioCache
    var com2: RadioCache
    var cSelectedCom: nat
    var cWoW: nat
    var cPosition: Position
    var currentPosition: Position

    // the variables of the loop
    var counter: nat
    var firstDisconnectedPass: bool
    var firstConnectedPass: bool

    /** Every report the callback received, oldest first. */
    ghost var reports: seq<SimComData>
    /** The last successful poll, the one that was reported last, and how many have passed without a report since. */
    ghost var last: Option<Reading>
    ghost var told: Option<Reading>
    ghost var quiet: nat

    ghost predicate Valid()
      reads this
    {
      && counter < 100 && quiet <= counter
      && (last.Some? ==> Caches(last.value))
      && (!firstConnectedPass ==> cFSUIPCConnected && last.Some? && Informed(last.value))
    }

    /** The fields hold exactly this reading. */
    ghost predicate Caches(reading: Reading)
      reads this
    {
      Cached(com1, com2, cSelectedCom, reading)
    }

    /** The plugin knows a reading that differs from this one by missed changes at most. */
    ghost predicate Informed(reading: Reading)
      reads this
    {
      Informs(reports, told, kind, cWoW, reading)
    }

    /** What would be reported now is what the last reading means. */
    lemma CachedIsReported(reading: Reading)
      requires Caches(reading)
      ensures forall a, b, c :: TunedOf(GetSimComData(a, b, c)) == TunedBy(kind, reading, cWoW)
    {
    }

    constructor (far: (Position, Position) -> bool, link: Option<SimKind>, kind: SimKind, cache: RadioCache,
                 position: Position)
      ensures Valid() && reports == [] && last == None && told == None
    {
      this.far := far;
      cFSUIPCConnected := link.Some?;
      this.kind := if link.Some? then link.value else kind;
      // the cached readings start with whatever is there
      com1, com2, cSelectedCom, cWoW := cache, cache, 0, 0;
      cPosition, currentPosition := position, position;
      counter, firstDisconnectedPass, firstConnectedPass := 0, true, true;
      reports, last, told, quiet := [], None, None, 0;
    }

    function GetSimComData(blComChanged: bool, blPosChange: bool, blOtherChanged: bool): SimComData
      reads this
    {
      SimComData(FieldsOf(com1), FieldsOf(com2), SelectedCom(cSelectedCom, kind.isXPlane),
                 cWoW != 0, currentPosition, blComChanged, blPosChange, blOtherChanged)
    }

    /** The comparison of a successful poll with the cached readings. */
    method Compare(s: Sample) returns (blComChanged: bool)
      requires Valid() && Measured(s)
      modifies `com1, `com2, `cSelectedCom, `last
      ensures last == Some(ReadingOf(kind, s)) && Caches(last.value) && cSelectedCom == s.radioSwitch
      ensures old(last).Some? ==>
                (blComChanged <==> last != old(last) && !Missed(old(last).value, last.value))
      ensures !blComChanged && old(last).Some? && Informed(old(last).value) ==> Informed(last.value)
    {
      hide Cached, Refresh, ReadingOf, Measured, Missed, Informs;
      var now := ReadingOf(kind, s);
      if last.Some? && Informed(last.value) && Knows(last.value, now) {
        StaysInformed(reports, told, kind, cWoW, last.value, now);
      }
      RefreshCaches(com1, com2, kind, s);
      if last.Some? {
        ComparisonIsExact(com1, com2, cSelectedCom, last.value, kind, s);
      }
      var simCom1Is833 := (kind.isXPlane || s.com1.capable != 0 || kind.isP3D5 || s.force833) && !s.force25;
      var simCom2Is833 := (kind.isXPlane || s.com2.capable != 0 || kind.isP3D5 || s.force833) && !s.force25;
      var refreshed1, refreshed2 := Refresh(com1, simCom1Is833, s.com1), Refresh(com2, simCom2Is833, s.com2);
      com1, com2 := refreshed1.0, refreshed2.0;
      blComChanged := refreshed1.1 || refreshed2.1;
      if s.radioSwitch != cSelectedCom {
        blComChanged := true;
        cSelectedCom := s.radioSwitch;
      }
      last := Some(ReadingOf(kind, s));
    }

    /** Weight on wheels, position and the counter that forces a report now and then. */
    method Track(s: Sample) returns (blPosChange: bool, blOtherChanged: bool)
      requires counter < 100 && currentPosition == s.position
      modifies `cWoW, `cPosition, `counter
      ensures cWoW == s.onGround && counter < 100
      ensures blPosChange <==> far(s.position, old(cPosition))
      ensures cPosition == if blPosChange then s.position else old(cPosition)
      ensures blOtherChanged <==> s.onGround != old(cWoW) || (!blPosChange && old(counter) == 99)
      ensures counter == if blPosChange then 1 else if old(counter) == 99 then 0 else old(counter) + 1
    {
      blPosChange, blOtherChanged := false, false;
      if s.onGround != cWoW {
        blOtherChanged := true;
        cWoW := s.onGround;
      }
      if far(currentPosition, cPosition) {
        blPosChange := true;
        counter := 0;
        cPosition := currentPosition;
      }
      counter := counter + 1;
      if counter >= 100 {
        blOtherChanged := true;
        counter := 0;
      }
    }

    /** What would be reported after a poll is its sample. */
    lemma ReportIsSample(s: Sample, com: bool, pos: bool, other: bool)
      requires Caches(ReadingOf(kind, s)) && cSelectedCom == s.radioSwitch
      requires cWoW == s.onGround && currentPosition == s.position
      ensures ReportsSample(GetSimComData(com, pos, other), kind, s, com, pos, other)
    {
      CachedReports(kind, s, com1, com2, com, pos, other);
    }

    /** The first half of a pass whose poll succeeded: the sample is taken over and compared. */
    method Take(s: Sample) returns (blComChanged: bool, blPosChange: bool, blOtherChanged: bool)
      requires Valid() && Measured(s)
      modifies `com1, `com2, `cSelectedCom, `last, `cWoW, `cPosition, `currentPosition, `counter
      ensures last == Some(ReadingOf(kind, s)) && Caches(last.value) && cSelectedCom == s.radioSwitch
      ensures cWoW == s.onGround && currentPosition == s.position
      ensures old(last).Some? ==>
                (blComChanged <==> last != old(last) && !Missed(old(last).value, last.value))
      ensures blPosChange <==> far(s.position, old(cPosition))
      ensures blOtherChanged <==> s.onGround != old(cWoW) || (!blPosChange && old(counter) == 99)
      ensures counter < 100 && (!blPosChange && !blOtherChanged ==> counter == old(counter) + 1)
      ensures !firstConnectedPass && !blComChanged && !blOtherChanged ==> Informed(last.value)
    {
      hide Cached, SelectedCom, ReadingOf, FieldsOf, Measured, Plausible, Missed, Informs, TunedBy, TunedOf;
      currentPosition := s.position;
      blComChanged := Compare(s);
      blPosChange, blOtherChanged := Track(s);
    }

    /** A pass whose poll succeeded. */
    method Polled(s: Sample) returns (blComChanged: bool, blPosChange: bool, blOtherChanged: bool, notified: bool)
      requires Valid() && Measured(s) && cFSUIPCConnected
      modifies `com1, `com2, `cSelectedCom, `last
      modifies `cWoW, `cPosition, `currentPosition, `counter
      modifies `reports, `told, `quiet, `firstConnectedPass, `firstDisconnectedPass
      ensures Valid() && !firstConnectedPass && firstDisconnectedPass
      ensures last == Some(ReadingOf(kind, s)) && cWoW == s.onGround && currentPosition == s.position
      ensures old(last).Some? ==>
                (blComChanged <==> last != old(last) && !Missed(old(last).value, last.value))
      ensures notified <==> blComChanged || blPosChange || blOtherChanged || old(firstConnectedPass)
      ensures told == if notified then last else old(told)
      ensures blPosChange <==> far(s.position, old(cPosition))
      ensures blOtherChanged <==> s.onGround != old(cWoW) || (!blPosChange && old(counter) == 99)
      ensures |reports| == |old(reports)| + if notified then 1 else 0
      ensures notified ==> ReportsSample(reports[|reports| - 1], kind, s, blComChanged, blPosChange, blOtherChanged)
      ensures reports == if notified then old(reports) + [GetSimComData(blComChanged, blPosChange, blOtherChanged)]
                         else old(reports)
    {
      hide Cached, SelectedCom, ReadingOf, FieldsOf, Measured, Plausible, Missed, Informs, TunedBy, TunedOf,
           ReportsSample;
      blComChanged, blPosChange, blOtherChanged := Take(s);
      ReportIsSample(s, blComChanged, blPosChange, blOtherChanged);
      notified := Notify(blComChanged, blPosChange, blOtherChanged);
      firstDisconnectedPass := true;
    }

    /** Tells the plugin if anything changed or the link has just come up. */
    method Notify(blComChanged: bool, blPosChange: bool, blOtherChanged: bool) returns (notified: bool)
      requires last.Some? && Caches(last.value)
      requires !firstConnectedPass && !blComChanged && !blOtherChanged ==> Informed(last.value)
      modifies `reports, `told, `quiet, `firstConnectedPass
      ensures notified == (blComChanged || blPosChange || blOtherChanged || old(firstConnectedPass))
      ensures Caches(last.value) && Informed(last.value) && !firstConnectedPass
      ensures if notified then quiet == 0 && told == last else quiet == old(quiet) + 1 && told == old(told)
      ensures reports == if notified then old(reports) + [GetSimComData(blComChanged, blPosChange, blOtherChanged)]
                         else old(reports)
    {
      hide Cached, SelectedCom, FieldsOf, TunedBy, TunedOf;
      notified := blComChanged || blPosChange || blOtherChanged || firstConnectedPass;
      if notified {
        CachedIsReported(last.value);
        reports := reports + [GetSimComData(blComChanged, blPosChange, blOtherChanged)];
        told, quiet, firstConnectedPass := last, 0, false;
      } else {
        quiet := quiet + 1;
      }
    }

    /** A pass whose poll failed: reported once, and the link is closed. */
    method PollFailed() returns (notified: bool)
      requires Valid()
      modifies `firstDisconnectedPass, `firstConnectedPass, `cFSUIPCConnected, `reports
      ensures Valid() && firstConnectedPass && !cFSUIPCConnected && !firstDisconnectedPass
      ensures notified <==> old(firstDisconnectedPass)
      ensures reports == old(reports) + if notified then [GetSimComData(false, false, false)] else []
      ensures notified ==> var d := reports[|reports| - 1]; !d.blComChanged && !d.blPosChanged && !d.blOtherChanged
    {
      notified := firstDisconnectedPass;
      if firstDisconnectedPass {
        reports := reports + [GetSimComData(false, false, false)];
        firstDisconnectedPass := false;
      }
      cFSUIPCConnected := false;
      firstConnectedPass := true;
    }

    /** Opens the link if it is closed; the kind of simulator is found out only then. */
    method CheckConnection(link: Option<SimKind>)
      requires Valid()
      modifies `cFSUIPCConnected, `kind
      ensures Valid() && cFSUIPCConnected == (old(cFSUIPCConnected) || link.Some?)
      ensures old(cFSUIPCConnected) || link.None? ==> kind == old(kind)
    {
      if !cFSUIPCConnected && link.Some? {
        cFSUIPCConnected := true;
        kind := link.value;
      }
    }

    /**
     The loop, over any sequence of passes.  After a pass whose poll succeeded the plugin
     knows the current reading exactly if all that has changed since the last report is not a silent switch,
     and so in any case if the sample is plausible.  It never misses a hundred polls in a row.
     */
    method WorkerThread(passes: seq<Pass>) returns (ok: bool)
      requires Valid() && forall p <- passes :: p.answer.Some? ==> Measured(p.answer.value)
      modifies this
      ensures Valid() && quiet < 100
      ensures ok ==> passes != [] && passes[|passes| - 1].answer.Some?
      ensures ok ==> && last == Some(ReadingOf(kind, passes[|passes| - 1].answer.value)) && told.Some? && reports != []
                     && TunedBy(kind, last.value, passes[|passes| - 1].answer.value.onGround)
                        == TunedOf(GetSimComData(false, false, false))
      ensures ok ==> (TunedOf(reports[|reports| - 1]) == TunedOf(GetSimComData(false, false, false))
                      <==> !Missed(told.value, last.value))
      ensures ok && Plausible(passes[|passes| - 1].answer.value) ==>
                TunedOf(reports[|reports| - 1]) == TunedOf(GetSimComData(false, false, false))
      ensures passes != [] && !ok ==> !cFSUIPCConnected
    {
      hide Cached, SelectedCom, ReadingOf, FieldsOf, Measured, Plausible, Missed, TunedBy, TunedOf;
      ok := false;
      for i := 0 to |passes|
        invariant Valid()
        invariant ok ==> i > 0 && passes[i - 1].answer.Some?
        invariant ok ==> !firstConnectedPass && cWoW == passes[i - 1].answer.value.onGround
        invariant ok ==> last == Some(ReadingOf(kind, passes[i - 1].answer.value))
        invariant i > 0 && !ok ==> !cFSUIPCConnected
      {
        CheckConnection(passes[i].link);
        ok := cFSUIPCConnected && passes[i].answer.Some?;
        if ok {
          assert passes[i] in passes;
          var changed, moved, other, notified := Polled(passes[i].answer.value);
        } else {
          var notified := PollFailed();
        }
      }
      if ok {
        CachedIsReported(last.value);
        var s := passes[|passes| - 1].answer.value;
        if Missed(told.value, last.value) {
          MissedShows(told.value, kind, s, s.onGround);
        }
      }
    }
  }
}
