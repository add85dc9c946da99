/**
 Metrics kept in two ways: in memory as maps, and in Redis as one flat hash whose
 field names carry the metric's kind, name and part. Field values are decimal
 texts in Redis and integers here.
 */
module Metrics {
  datatype Histogram = Histogram(count: int, sumMs: int, maxMs: int)

  datatype Snapshot = Snapshot(counters: map<string, int>, histograms: map<string, Histogram>)

  const NO_METRICS := Snapshot(map[], map[])

  const NO_DURATIONS := Histogram(0, 0, 0)

  datatype Record = CounterRecord(name: string, delta: int) | DurationRecord(name: string, ms: int)

  // --------------------------------------------------------------- in memory

  function Lookup(m: map<string, int>, key: string): int {
    if key in m then m[key] else 0
  }

  function HistogramOf(s: Snapshot, name: string): Histogram {
    if name in s.histograms then s.histograms[name] else NO_DURATIONS
  }

  function Larger(a: int, b: int): int {
    if a < b then b else a
  }

  function Collect(s: Snapshot, r: Record): Snapshot {
    match r
    case CounterRecord(name, delta) => s.(counters := s.counters[name := Lookup(s.counters, name) + delta])
    case DurationRecord(name, ms) =>
      var h := HistogramOf(s, name);
      s.(histograms := s.histograms[name := Histogram(h.count + 1, h.sumMs + ms, Larger(h.maxMs, ms))])
  }

  class MetricsCollector {
    var counters: map<string, int>
    var histograms: map<string, Histogram>

    function Contents(): Snapshot
      reads this
    {
      Snapshot(counters, histograms)
    }

    constructor ()
      ensures Contents() == NO_METRICS
    {
      counters, histograms := map[], map[];
    }

    method IncrementCounter(name: string, delta: int)
      modifies this`counters
      ensures Contents() == Collect(old(Contents()), CounterRecord(name, delta))
    {
      counters := counters[name := (if name in counters then counters[name] else 0) + delta];
    }

    method ObserveDurationMs(name: string, ms: int)
      modifies this`histograms
      ensures Contents() == Collect(old(Contents()), DurationRecord(name, ms))
    {
      var h := if name in histograms then histograms[name] else NO_DURATIONS;
      h := h.(count := h.count + 1);
      h := h.(sumMs := h.sumMs + ms);
      h := h.(maxMs := if h.maxMs < ms then ms else h.maxMs);
      histograms := histograms[name := h];
    }
  }

  // ------------------------------------------------------------- field names

  datatype Part = Count | Sum | Max

  function PartName(p: Part): string {
    match p
    case Count => "count"
    case Sum => "sum"
    case Max => "max"
  }

  function CounterField(name: string): string {
    "c:" + name
  }

  function HistogramField(name: string, part: Part): string {
    "h:" + name + ":" + PartName(part)
  }

  /** The field names as they stand in Redis. */
  lemma FieldNames(name: string)
    ensures CounterField(name) == "c:" + name
    ensures HistogramField(name, Count) == "h:" + name + ":count"
    ensures HistogramField(name, Sum) == "h:" + name + ":sum"
    ensures HistogramField(name, Max) == "h:" + name + ":max"
  {
    assert ":" + "count" == ":count" && ":" + "sum" == ":sum" && ":" + "max" == ":max";
    assert forall s: string :: "h:" + name + ":" + s == "h:" + name + (":" + s);
  }

  predicate StartsWith(value: string, prefix: string) {
    |value| >= |prefix| && value[..|prefix|] == prefix
  }

  /** The position of the last colon, or -1. */
  function LastColon(s: string): (k: int)
    ensures -1 <= k < |s|
    ensures k >= 0 ==> s[k] == ':'
    ensures forall i :: k < i < |s| ==> s[i] != ':'
  {
    if s == "" then -1 else if s[|s| - 1] == ':' then |s| - 1 else LastColon(s[..|s| - 1])
  }

  datatype Field = CounterOf(name: string) | DurationOf(name: string, suffix: string) | Other

  function ParseField(field: string): Field {
    if StartsWith(field, "c:") then CounterOf(field[2..])
    else if !StartsWith(field, "h:") then Other
    else
      var key := field[2..];
      var k := LastColon(key);
      if k < 0 then Other else DurationOf(key[..k], key[k + 1..])
  }

  /** The last colon is the one before the suffix, even if the name has colons too. */
  lemma LastColonBefore(name: string, suffix: string)
    requires ':' !in suffix
    ensures LastColon(name + ":" + suffix) == |name|
  {
    hide LastColon;
    var s := name + ":" + suffix;
    assert s[|name|] == ':';
  }

  lemma ParseCounterField(name: string)
    ensures ParseField(CounterField(name)) == CounterOf(name)
  {
    assert CounterField(name)[..2] == "c:" && CounterField(name)[2..] == name;
  }

  lemma ParseDurationField(name: string, suffix: string)
    requires ':' !in suffix
    ensures ParseField("h:" + name + ":" + suffix) == DurationOf(name, suffix)
  {
    var key := name + ":" + suffix;
    var field := "h:" + name + ":" + suffix;
    LastColonBefore(name, suffix);
    assert field == "h:" + key;
    assert field[0] == 'h' && field[..2] == "h:" && field[2..] == key;
    assert !StartsWith(field, "c:") by {
      assert "c:"[0] == 'c';
    }
    hide LastColon;
    assert key[..|name|] == name && key[|name| + 1..] == suffix;
  }

  lemma ParseHistogramField(name: string, part: Part)
    ensures ParseField(HistogramField(name, part)) == DurationOf(name, PartName(part))
  {
    hide ParseField;
    ParseDurationField(name, PartName(part));
  }

  /** The text that a field was parsed from. */
  function FieldText(field: Field): string {
    match field
    case CounterOf(name) => "c:" + name
    case DurationOf(name, suffix) => "h:" + name + ":" + suffix
    case Other => ""
  }

  lemma ParsedFrom(text: string)
    requires !ParseField(text).Other?
    ensures text == FieldText(ParseField(text))
  {
    assert text == text[..2] + text[2..];
    if !ParseField(text).CounterOf? {
      var key := text[2..];
      var k := LastColon(key);
      hide LastColon;
      assert key == key[..k] + ":" + key[k + 1..];
      assert "h:" + key[..k] + ":" + key[k + 1..] == "h:" + (key[..k] + ":" + key[k + 1..]);
    }
  }

  /** No two fields parse alike. */
  lemma ParseFieldInjective(a: string, b: string)
    requires ParseField(a) == ParseField(b) && !ParseField(a).Other?
    ensures a == b
  {
    hide ParseField, FieldText;
    ParsedFrom(a);
    ParsedFrom(b);
  }

  // --------------------------------------------------------------- flat hash

  type Hash = map<string, int>

  /** HINCRBY. */
  function Increment(h: Hash, field: string, delta: int): Hash {
    h[field := Lookup(h, field) + delta]
  }

  function Store(h: Hash, r: Record): Hash {
    match r
    case CounterRecord(name, delta) => Increment(h, CounterField(name), delta)
    case DurationRecord(name, ms) =>
      var summed := Increment(Increment(h, HistogramField(name, Count), 1), HistogramField(name, Sum), ms);
      var top := HistogramField(name, Max);
      if top in summed && summed[top] >= ms then summed else summed[top := ms]
  }

  function SetPart(h: Histogram, suffix: string, value: int): Histogram {
    if suffix == "count" then h.(count := value)
    else if suffix == "sum" then h.(sumMs := value)
    else if suffix == "max" then h.(maxMs := value)
    else h
  }

  /** What reading one field adds to a snapshot. */
  function Absorb(s: Snapshot, field: string, value: int): Snapshot {
    match ParseField(field)
    case CounterOf(name) => s.(counters := s.counters[name := value])
    case DurationOf(name, suffix) =>
      s.(histograms := s.histograms[name := SetPart(HistogramOf(s, name), suffix, value)])
    case Other => s
  }

  function CounterNames(h: Hash): set<string> {
    set f | f in h && ParseField(f).CounterOf? :: ParseField(f).name
  }

  function HistogramNames(h: Hash): set<string> {
    set f | f in h && ParseField(f).DurationOf? :: ParseField(f).name
  }

  function DecodeHistogram(h: Hash, name: string): Histogram {
    Histogram(Lookup(h, HistogramField(name, Count)), Lookup(h, HistogramField(name, Sum)),
              Lookup(h, HistogramField(name, Max)))
  }

  /** The metrics that a hash stands for. */
  function Decode(h: Hash): Snapshot {
    Snapshot(
      map name | name in CounterNames(h) :: Lookup(h, CounterField(name)),
      map name | name in HistogramNames(h) :: DecodeHistogram(h, name))
  }

  /** Which metric a field belongs to is told by its name alone. */
  lemma FieldOwner(field: string)
    ensures forall n :: CounterField(n) == field <==> ParseField(field) == CounterOf(n)
    ensures forall n, part :: HistogramField(n, part) == field <==> ParseField(field) == DurationOf(n, PartName(part))
  {
    hide ParseField, CounterField, HistogramField, PartName;
    forall n
      ensures CounterField(n) == field <==> ParseField(field) == CounterOf(n)
    {
      ParseCounterField(n);
      if ParseField(field) == CounterOf(n) {
        ParseFieldInjective(field, CounterField(n));
      }
    }
    forall n, part
      ensures HistogramField(n, part) == field <==> ParseField(field) == DurationOf(n, PartName(part))
    {
      ParseHistogramField(n, part);
      if ParseField(field) == DurationOf(n, PartName(part)) {
        ParseFieldInjective(field, HistogramField(n, part));
      }
    }
  }

  lemma NamesAfter(h: Hash, field: string, value: int)
    ensures CounterNames(h[field := value])
            == CounterNames(h) + if ParseField(field).CounterOf? then {ParseField(field).name} else {}
    ensures HistogramNames(h[field := value])
            == HistogramNames(h) + if ParseField(field).DurationOf? then {ParseField(field).name} else {}
  {
    hide ParseField;
    var h' := h[field := value];
    assert field in h';
    assert forall f :: f in h' <==> f in h || f == field;
  }

  /** A histogram none of whose fields is there yet. */
  lemma AbsentHistogram(h: Hash, name: string, part: Part)
    requires name !in HistogramNames(h)
    ensures HistogramField(name, part) !in h
  {
    ParseHistogramField(name, part);
  }

  lemma HistogramAfter(h: Hash, field: string, value: int, name: string)
    ensures DecodeHistogram(h[field := value], name)
            == if ParseField(field).DurationOf? && ParseField(field).name == name
               then SetPart(DecodeHistogram(h, name), ParseField(field).suffix, value)
               else DecodeHistogram(h, name)
  {
    FieldOwner(field);
    hide ParseField, CounterField, HistogramField;
    assert forall part :: (HistogramField(name, part) == field
                           <==> ParseField(field) == DurationOf(name, PartName(part)));
  }

  lemma DecodedHistogram(h: Hash, name: string)
    ensures HistogramOf(Decode(h), name) == DecodeHistogram(h, name)
  {
    if name !in HistogramNames(h) {
      AbsentHistogram(h, name, Count);
      AbsentHistogram(h, name, Sum);
      AbsentHistogram(h, name, Max);
    }
    hide ParseField, CounterField, HistogramField, CounterNames, HistogramNames;
  }

  lemma AbsorbCounters(h: Hash, field: string, value: int)
    ensures Decode(h[field := value]).counters == Absorb(Decode(h), field, value).counters
  {
    hide ParseField, CounterField, HistogramField, CounterNames, HistogramNames, DecodeHistogram;
    FieldOwner(field);
    NamesAfter(h, field, value);
  }

  lemma AbsorbHistograms(h: Hash, field: string, value: int)
    ensures Decode(h[field := value]).histograms == Absorb(Decode(h), field, value).histograms
  {
    hide ParseField, CounterField, HistogramField, CounterNames, HistogramNames, DecodeHistogram;
    NamesAfter(h, field, value);
    var a, b := Decode(h[field := value]).histograms, Absorb(Decode(h), field, value).histograms;
    assert a.Keys == b.Keys;
    forall n | n in a
      ensures a[n] == b[n]
    {
      HistogramAfter(h, field, value, n);
      DecodedHistogram(h, n);
    }
  }

  /** Setting a field of the hash absorbs it into what the hash stands for. */
  lemma AbsorbField(h: Hash, field: string, value: int)
    ensures Decode(h[field := value]) == Absorb(Decode(h), field, value)
  {
    hide Decode, Absorb;
    AbsorbCounters(h, field, value);
    AbsorbHistograms(h, field, value);
  }

  lemma PartsApart(name: string)
    ensures HistogramField(name, Count) != HistogramField(name, Sum)
    ensures HistogramField(name, Count) != HistogramField(name, Max)
    ensures HistogramField(name, Sum) != HistogramField(name, Max)
  {
    ParseHistogramField(name, Count);
    ParseHistogramField(name, Sum);
    ParseHistogramField(name, Max);
    hide ParseField, HistogramField;
  }

  // ------------------------------------------------------------- Redis side

  class RedisMetrics {
    var hash: Hash

    constructor ()
      ensures hash == map[]
    {
      hash := map[];
    }

    method HIncrBy(field: string, delta: int)
      modifies this
      ensures hash == Increment(old(hash), field, delta)
    {
      hash := hash[field := (if field in hash then hash[field] else 0) + delta];
    }

    method RecordCounter(name: string, delta: int)
      modifies this
      ensures hash == Store(old(hash), CounterRecord(name, delta))
      ensures hash == old(hash)["c:" + name := Lookup(old(hash), "c:" + name) + delta]
    {
      HIncrBy(CounterField(name), delta);
    }

    /** Three commands, the last one only if the maximum is absent or smaller. */
    method RecordDurationMs(name: string, ms: int)
      modifies this
      ensures hash == Store(old(hash), DurationRecord(name, ms))
    {
      HIncrBy(HistogramField(name, Count), 1);
      HIncrBy(HistogramField(name, Sum), ms);
      var top := HistogramField(name, Max);
      if top !in hash || hash[top] < ms {
        hash := hash[top := ms];
      }
    }

    /** Read all fields, in whatever order the hash yields them. */
    method CollectMetrics() returns (snapshot: Snapshot)
      ensures snapshot == Decode(hash)
    {
      snapshot := NO_METRICS;
      var rest := hash.Keys;
      ghost var seen: Hash := map[];
      while rest != {}
        invariant rest <= hash.Keys && seen.Keys == hash.Keys - rest
        invariant forall f :: f in seen ==> seen[f] == hash[f]
        invariant snapshot == Decode(seen)
        decreases rest
      {
        hide Decode, CounterNames, HistogramNames;
        var field :| field in rest;
        rest := rest - {field};
        AbsorbField(seen, field, hash[field]);
        seen := seen[field := hash[field]];
        snapshot := Absorb(snapshot, field, hash[field]);
      }
      assert seen == hash;
    }
  }

  // -------------------------------------------------------------- refinement

  lemma DecodedCounter(h: Hash, name: string)
    ensures Lookup(Decode(h).counters, name) == Lookup(h, CounterField(name))
  {
    ParseCounterField(name);
    hide ParseField, CounterField, HistogramField, HistogramNames;
  }

  lemma StoreCounter(h: Hash, name: string, delta: int)
    ensures Decode(Store(h, CounterRecord(name, delta))) == Collect(Decode(h), CounterRecord(name, delta))
  {
    hide Decode, ParseField, CounterField;
    DecodedCounter(h, name);
    ParseCounterField(name);
    AbsorbField(h, CounterField(name), Lookup(h, CounterField(name)) + delta);
  }

  function Observe(x: Histogram, ms: int, maxKnown: bool): Histogram {
    Histogram(x.count + 1, x.sumMs + ms, if maxKnown then Larger(x.maxMs, ms) else ms)
  }

  /** What recording a duration in the hash does to the metrics it stands for. */
  lemma StoreDuration(h: Hash, name: string, ms: int)
    ensures var d := Decode(h);
            Decode(Store(h, DurationRecord(name, ms)))
            == d.(histograms := d.histograms[name := Observe(HistogramOf(d, name), ms, HistogramField(name, Max) in h)])
  {
    var c, s, m := HistogramField(name, Count), HistogramField(name, Sum), HistogramField(name, Max);
    PartsApart(name);
    DecodedHistogram(h, name);
    ParseHistogramField(name, Count);
    ParseHistogramField(name, Sum);
    ParseHistogramField(name, Max);
    var h1 := Increment(h, c, 1);
    var h2 := Increment(h1, s, ms);
    AbsorbField(h, c, Lookup(h, c) + 1);
    AbsorbField(h1, s, Lookup(h1, s) + ms);
    AbsorbField(h2, m, ms);
    hide Decode, ParseField, HistogramField;
  }

  function StoreAll(records: seq<Record>): Hash {
    if records == [] then map[] else Store(StoreAll(records[..|records| - 1]), records[|records| - 1])
  }

  function CollectAll(records: seq<Record>): Snapshot {
    if records == [] then NO_METRICS else Collect(CollectAll(records[..|records| - 1]), records[|records| - 1])
  }

  ghost predicate Observed(records: seq<Record>, name: string) {
    exists r :: r in records && r.DurationRecord? && r.name == name
  }

  ghost predicate ObservedNonNegative(records: seq<Record>, name: string) {
    exists r :: r in records && r.DurationRecord? && r.name == name && r.ms >= 0
  }

  function Clamped(x: Histogram): Histogram {
    x.(maxMs := Larger(0, x.maxMs))
  }

  /** The collector's maximum starts at zero, the hash's at the first duration. */
  ghost predicate Agree(d: Snapshot, c: Snapshot) {
    && c.counters == d.counters
    && c.histograms.Keys == d.histograms.Keys
    && forall n :: n in d.histograms ==> c.histograms[n] == Clamped(d.histograms[n])
  }

  /** The hash has a histogram for a name exactly if it has durations; the sign of its maximum tells which. */
  ghost predicate Tracks(h: Hash, records: seq<Record>, n: string) {
    && (HistogramField(n, Max) in h <==> Observed(records, n))
    && (n in Decode(h).histograms <==> Observed(records, n))
    && (n in Decode(h).histograms ==> (Decode(h).histograms[n].maxMs >= 0 <==> ObservedNonNegative(records, n)))
  }

  lemma MaxFieldAfter(h: Hash, r: Record, n: string)
    ensures HistogramField(n, Max) in Store(h, r) <==> HistogramField(n, Max) in h || (r.DurationRecord? && r.name == n)
  {
    ParseHistogramField(n, Max);
    ParseCounterField(r.name);
    ParseHistogramField(r.name, Count);
    ParseHistogramField(r.name, Sum);
    ParseHistogramField(r.name, Max);
    hide ParseField, CounterField, HistogramField;
  }

  /** What adding one record does to the observations. */
  lemma ObservedAfter(before: seq<Record>, r: Record, n: string)
    ensures Observed(before + [r], n) <==> Observed(before, n) || (r.DurationRecord? && r.name == n)
    ensures ObservedNonNegative(before + [r], n)
            <==> ObservedNonNegative(before, n) || (r.DurationRecord? && r.name == n && r.ms >= 0)
    ensures ObservedNonNegative(before, n) ==> Observed(before, n)
  {
    assert r in before + [r];
    assert forall x :: x in before + [r] <==> x in before || x == r;
  }

  lemma TracksAfter(h: Hash, before: seq<Record>, r: Record, n: string)
    requires Tracks(h, before, n)
    ensures Tracks(Store(h, r), before + [r], n)
  {
    hide Decode, Store, HistogramField, Observed, ObservedNonNegative;
    MaxFieldAfter(h, r, n);
    ObservedAfter(before, r, n);
    match r {
      case CounterRecord(name, delta) => StoreCounter(h, name, delta);
      case DurationRecord(name, ms) => StoreDuration(h, name, ms);
    }
  }

  lemma AgreeAfter(h: Hash, c: Snapshot, before: seq<Record>, r: Record)
    requires Agree(Decode(h), c) && Tracks(h, before, r.name)
    ensures Agree(Decode(Store(h, r)), Collect(c, r))
  {
    hide Decode, Store, HistogramField, Observed, ObservedNonNegative;
    match r {
      case CounterRecord(name, delta) => StoreCounter(h, name, delta);
      case DurationRecord(name, ms) => StoreDuration(h, name, ms);
    }
  }

  lemma NoRecords()
    ensures Agree(Decode(map[]), NO_METRICS) && forall n :: Tracks(map[], [], n)
  {
  }

  lemma {:induction false} RecordsAgree(records: seq<Record>)
    ensures Agree(Decode(StoreAll(records)), CollectAll(records)) && forall n :: Tracks(StoreAll(records), records, n)
  {
    hide Agree, Tracks, Decode, Store, Collect;
    if records == [] {
      NoRecords();
    } else {
      var k := |records| - 1;
      var before, r := records[..k], records[k];
      RecordsAgree(before);
      assert records == before + [r];
      AgreeAfter(StoreAll(before), CollectAll(before), before, r);
      forall n
        ensures Tracks(StoreAll(records), records, n)
      {
        TracksAfter(StoreAll(before), before, r, n);
      }
    }
  }

  /**
   The flat hash refines the in-memory collector: for any records by one client,
   and any metric names, colons included, reading the hash back gives exactly the
   collector's counters and histograms, if and only if no histogram has only
   negative durations.
   */
  lemma HashRefinesCollector(records: seq<Record>)
    ensures Decode(StoreAll(records)) == CollectAll(records)
            <==> forall r :: r in records && r.DurationRecord? ==> ObservedNonNegative(records, r.name)
  {
    RecordsAgree(records);
    var d, c := Decode(StoreAll(records)), CollectAll(records);
    hide Decode, StoreAll, CollectAll, ObservedNonNegative;
    if forall r :: r in records && r.DurationRecord? ==> ObservedNonNegative(records, r.name) {
      forall n | n in d.histograms
        ensures c.histograms[n] == d.histograms[n]
      {
        assert Tracks(StoreAll(records), records, n);
      }
    }
    if d == c {
      forall r | r in records && r.DurationRecord?
        ensures ObservedNonNegative(records, r.name)
      {
        assert Observed(records, r.name);
        assert Tracks(StoreAll(records), records, r.name);
      }
    }
  }

  /** The case that differs: a single negative duration. */
  lemma NegativeDurationDiffers(name: string)
    ensures Decode(StoreAll([DurationRecord(name, -5)])) != CollectAll([DurationRecord(name, -5)])
  {
    var records := [DurationRecord(name, -5)];
    HashRefinesCollector(records);
    assert records[0] in records;
  }

  // -------------------------------------------------------- what is collected

  /** The increments recorded for a counter. */
  function Increments(records: seq<Record>, name: string): seq<int> {
    if records == [] then []
    else
      var before, r := Increments(records[..|records| - 1], name), records[|records| - 1];
      if r.CounterRecord? && r.name == name then before + [r.delta] else before
  }

  /** The durations recorded for a histogram. */
  function Durations(records: seq<Record>, name: string): seq<int> {
    if records == [] then []
    else
      var before, r := Durations(records[..|records| - 1], name), records[|records| - 1];
      if r.DurationRecord? && r.name == name then before + [r.ms] else before
  }

  function Total(xs: seq<int>): int {
    if xs == [] then 0 else Total(xs[..|xs| - 1]) + xs[|xs| - 1]
  }

  lemma TotalAppend(xs: seq<int>, x: int)
    ensures Total(xs + [x]) == Total(xs) + x
  {
    assert (xs + [x])[..|xs|] == xs;
  }

  /** A histogram of these durations: how many, their total, and the largest, or zero if none is positive. */
  predicate Describes(h: Histogram, durations: seq<int>) {
    && h.count == |durations| && h.sumMs == Total(durations)
    && h.maxMs >= 0 && (forall i :: 0 <= i < |durations| ==> durations[i] <= h.maxMs)
    && (h.maxMs == 0 || h.maxMs in durations)
  }

  lemma DescribesMore(h: Histogram, durations: seq<int>, ms: int)
    requires Describes(h, durations)
    ensures Describes(Histogram(h.count + 1, h.sumMs + ms, Larger(h.maxMs, ms)), durations + [ms])
  {
    TotalAppend(durations, ms);
    hide Total;
    assert (durations + [ms])[|durations|] == ms;
    assert forall x :: x in durations ==> x in durations + [ms];
  }

  lemma CounterAfter(s: Snapshot, r: Record, name: string)
    ensures Lookup(Collect(s, r).counters, name)
            == Lookup(s.counters, name) + if r.CounterRecord? && r.name == name then r.delta else 0
  {
  }

  lemma HistogramCollected(s: Snapshot, r: Record, name: string)
    ensures var h := HistogramOf(s, name);
            HistogramOf(Collect(s, r), name)
            == if r.DurationRecord? && r.name == name then Histogram(h.count + 1, h.sumMs + r.ms, Larger(h.maxMs, r.ms))
               else h
  {
  }

  lemma {:induction false} CountersMean(records: seq<Record>, name: string)
    ensures Lookup(CollectAll(records).counters, name) == Total(Increments(records, name))
  {
    if records == [] {
    } else {
      var before, r := records[..|records| - 1], records[|records| - 1];
      CountersMean(before, name);
      CounterAfter(CollectAll(before), r, name);
      hide Collect, Total;
      if r.CounterRecord? && r.name == name {
        TotalAppend(Increments(before, name), r.delta);
      }
    }
  }

  lemma {:induction false} HistogramsMean(records: seq<Record>, name: string)
    ensures Describes(HistogramOf(CollectAll(records), name), Durations(records, name))
  {
    if records == [] {
    } else {
      var before, r := records[..|records| - 1], records[|records| - 1];
      HistogramsMean(before, name);
      HistogramCollected(CollectAll(before), r, name);
      hide Collect, Total, Describes, Larger;
      if r.DurationRecord? && r.name == name {
        DescribesMore(HistogramOf(CollectAll(before), name), Durations(before, name), r.ms);
      }
    }
  }

  /**
   What the collector holds after any records: each counter the total of its
   increments, each histogram the number, total and largest of its durations.
   */
  lemma CollectedMeans(records: seq<Record>, name: string)
    ensures Lookup(CollectAll(records).counters, name) == Total(Increments(records, name))
    ensures Describes(HistogramOf(CollectAll(records), name), Durations(records, name))
  {
    CountersMean(records, name);
    HistogramsMean(records, name);
  }
}
