/**
 * src/utils/storage.ts: saving and loading the option list and the spin
 * statistics, and the migration of data written by older versions of the
 * app (weights under `probability` or `frequency`, statistics with a
 * `lastWinner` field).
 *
 * The key-value store is an abstract value with one slot per key, holding
 * documents that are already decoded; text encoding, the asynchronous calls
 * and a failing write are not modelled. `Date.now()` is a parameter.
 */
module Storage {

  import opened Wrappers
  import opened Types
  import Home

  // ---------------------------------------------------------------------
  // Stored documents
  // ---------------------------------------------------------------------

  /** A property of a decoded JSON object: not there, `null`, or a value. */
  datatype Field<T> = Absent | Null | Value(v: T)

  /** `obj.hasOwnProperty(name)`. */
  predicate Owns<T>(f: Field<T>)
  {
    !f.Absent?
  }

  /** JavaScript truthiness of a numeric property: present and not zero. */
  predicate Truthy(f: Field<real>)
  {
    f.Value? && f.v != 0.0
  }

  /** One element of the stored option array. Older versions stored the
      weight under `probability` or `frequency`; current ones under
      `percentage`. */
  datatype StoredItem = StoredItem(
    id: string, text: string, color: string,
    percentage: Field<real>, probability: Field<real>, frequency: Field<real>)

  /** The decoded options document: an array of records, `null`, or any
      other JSON value. For the latter, `legacyShaped` records whether it has
      a positive `length` and an element 0 that owns `probability` or
      `frequency`. */
  datatype OptionsDoc = JArray(items: seq<StoredItem>) | JNull | JOther(legacyShaped: bool)

  /** The decoded statistics document: a current record, an old record
      (one that owns `lastWinner`), or `null`. */
  datatype StatsDoc = StatsRecord(stats: WheelStats) | LegacyStats(totalSpins: Field<int>) | StatsNull

  /** What reading a key gives: nothing (`null` or the empty string), text
      that does not decode, or a decoded document. */
  datatype Slot<T> = Missing | Corrupt | Stored(doc: T)

  /** The two keys `wheel_options` and `wheel_stats`. */
  datatype Store = Store(options: Slot<OptionsDoc>, stats: Slot<StatsDoc>)

  // ---------------------------------------------------------------------
  // Options: encoding and migration
  // ---------------------------------------------------------------------

  /** `JSON.stringify` of one option, decoded again. */
  function Record(o: WheelOption): StoredItem
  {
    StoredItem(o.id, o.text, o.color, Value(o.percentage), Absent, Absent)
  }

  /** The document `saveWheelOptions` writes for a list. */
  function Encode(options: seq<WheelOption>): (doc: OptionsDoc)
    ensures doc.JArray? && |doc.items| == |options|
    ensures forall i :: 0 <= i < |options| ==> doc.items[i] == Record(options[i])
  {
    JArray(seq(|options|, i requires 0 <= i < |options| => Record(options[i])))
  }

  /** A stored array whose every record carries a numeric `percentage`,
      read back as options. */
  function Decode(doc: OptionsDoc): (r: Option<seq<WheelOption>>)
    ensures r.Some? <==> doc.JArray? && forall i :: 0 <= i < |doc.items| ==> doc.items[i].percentage.Value?
    ensures r.Some? ==> |r.value| == |doc.items| && forall i :: 0 <= i < |r.value| ==>
      Record(r.value[i]).(probability := doc.items[i].probability, frequency := doc.items[i].frequency)
        == doc.items[i]
  {
    if doc.JArray? && forall i :: 0 <= i < |doc.items| ==> doc.items[i].percentage.Value? then
      var items := doc.items;
      Some(seq(|items|, i requires 0 <= i < |items| && items[i].percentage.Value? =>
        WheelOption(items[i].id, items[i].text, items[i].percentage.v, items[i].color)))
    else None
  }

  /** What is written is what is read back. */
  lemma DecodeEncode(options: seq<WheelOption>)
    ensures Decode(Encode(options)) == Some(options)
  {
    var r := Decode(Encode(options));
    assert r.Some?;
    assert |r.value| == |options|;
    forall i | 0 <= i < |options|
      ensures r.value[i] == options[i]
    {
      assert Record(r.value[i]) == Record(options[i]);
    }
    assert r.value == options;
  }

  const DEFAULT_PERCENTAGE: real := 20.0

  /** `item.frequency || item.probability || 20`. */
  function MigratedPercentage(item: StoredItem): (p: real)
    ensures Truthy(item.frequency) ==> p == item.frequency.v
    ensures !Truthy(item.frequency) && Truthy(item.probability) ==> p == item.probability.v
    ensures !Truthy(item.frequency) && !Truthy(item.probability) ==> p == DEFAULT_PERCENTAGE
    ensures p != 0.0
  {
    if Truthy(item.frequency) then item.frequency.v
    else if Truthy(item.probability) then item.probability.v
    else DEFAULT_PERCENTAGE
  }

  /** An old record with non-negative weights migrates to a positive
      weight, so the migrated option can win. */
  lemma MigratedPercentagePositive(item: StoredItem)
    requires item.frequency.Value? ==> item.frequency.v >= 0.0
    requires item.probability.Value? ==> item.probability.v >= 0.0
    ensures MigratedPercentage(item) > 0.0
  {
  }

  /** `migrateOldData`: a non-array gives the empty list; an array is
      mapped record by record, keeping id, text and colour. */
  function MigrateOldData(doc: OptionsDoc): (r: seq<WheelOption>)
    ensures !doc.JArray? ==> r == []
    ensures doc.JArray? ==> |r| == |doc.items|
    ensures doc.JArray? ==> forall i :: 0 <= i < |r| ==>
      && r[i].id == doc.items[i].id
      && r[i].text == doc.items[i].text
      && r[i].color == doc.items[i].color
      && r[i].percentage == MigratedPercentage(doc.items[i])
  {
    if !doc.JArray? then []
    else
      var items := doc.items;
      seq(|items|, i requires 0 <= i < |items| =>
        WheelOption(items[i].id, items[i].text, MigratedPercentage(items[i]), items[i].color))
  }

  /** After migration every weight is non-zero. */
  lemma MigratedWeightsNonZero(doc: OptionsDoc)
    ensures forall i :: 0 <= i < |MigrateOldData(doc)| ==> MigrateOldData(doc)[i].percentage != 0.0
  {
    var r := MigrateOldData(doc);
    forall i | 0 <= i < |r|
      ensures r[i].percentage != 0.0
    {
      assert r[i].percentage == MigratedPercentage(doc.items[i]);
    }
  }

  /** No record owns `probability` or `frequency`. */
  predicate NoOldWeights(items: seq<StoredItem>)
  {
    forall i :: 0 <= i < |items| ==> !Owns(items[i].probability) && !Owns(items[i].frequency)
  }

  /** The test that triggers migration: a non-empty document whose element
      0 owns `probability` or `frequency`. */
  predicate LooksLegacy(doc: OptionsDoc): (legacy: bool)
    ensures doc.JNull? ==> !legacy
    ensures doc.JArray? && legacy ==>
      |doc.items| > 0 && (Owns(doc.items[0].probability) || Owns(doc.items[0].frequency))
    ensures doc.JArray? && NoOldWeights(doc.items) ==> !legacy
  {
    match doc
    case JArray(items) => |items| > 0 && (Owns(items[0].probability) || Owns(items[0].frequency))
    case JNull => false
    case JOther(legacyShaped) => legacyShaped
  }

  /** Records written by the current version never look old. */
  lemma EncodedNotLegacy(options: seq<WheelOption>)
    ensures !LooksLegacy(Encode(options))
  {
    var doc := Encode(options);
    if |options| > 0 {
      assert doc.items[0] == Record(options[0]);
    }
  }

  // ---------------------------------------------------------------------
  // Options: save and load
  // ---------------------------------------------------------------------

  /** `saveWheelOptions`: the options key now holds the encoded list. */
  function SaveWheelOptions(store: Store, options: seq<WheelOption>): (s: Store)
    ensures s.options == Stored(Encode(options))
    ensures s.stats == store.stats
  {
    store.(options := Stored(Encode(options)))
  }

  /** `loadWheelOptions`: the store after the call (a migration writes the
      migrated list back) and the document handed to the screen. */
  function LoadWheelOptions(store: Store): (out: (Store, OptionsDoc))
    ensures out.0.stats == store.stats
    ensures !store.options.Stored? || store.options.doc.JNull? ==> out == (store, JArray([]))
    ensures store.options.Stored? && LooksLegacy(store.options.doc) ==>
      var migrated := MigrateOldData(store.options.doc);
      out.1 == Encode(migrated) && out.0 == SaveWheelOptions(store, migrated)
    ensures store.options.Stored? && !store.options.doc.JNull? && !LooksLegacy(store.options.doc) ==>
      out == (store, store.options.doc)
  {
    match store.options
    case Missing => (store, JArray([]))
    case Corrupt => (store, JArray([]))
    case Stored(doc) =>
      if doc.JNull? then (store, JArray([]))
      else if LooksLegacy(doc) then
        var migrated := MigrateOldData(doc);
        (SaveWheelOptions(store, migrated), Encode(migrated))
      else (store, doc)
  }

  /** Loading after saving returns the saved list and writes nothing. */
  lemma SaveThenLoadOptions(store: Store, options: seq<WheelOption>)
    ensures var saved := SaveWheelOptions(store, options);
      LoadWheelOptions(saved) == (saved, Encode(options))
      && Decode(LoadWheelOptions(saved).1) == Some(options)
  {
    EncodedNotLegacy(options);
    DecodeEncode(options);
  }

  /** Migration happens at most once: loading again after a load returns
      the same document and leaves the store as it is. */
  lemma LoadIdempotent(store: Store)
    ensures var (s1, d1) := LoadWheelOptions(store);
      LoadWheelOptions(s1) == (s1, d1)
  {
    if store.options.Stored? && LooksLegacy(store.options.doc) {
      EncodedNotLegacy(MigrateOldData(store.options.doc));
    }
  }

  /** The screen gets an array unless the store holds some other JSON value
      that does not look old, which is passed on unchanged. */
  lemma LoadGivesArray(store: Store)
    requires !(store.options.Stored? && store.options.doc.JOther? && !store.options.doc.legacyShaped)
    ensures LoadWheelOptions(store).1.JArray?
  {
  }

  // ---------------------------------------------------------------------
  // Statistics
  // ---------------------------------------------------------------------

  /** The statistics of a first start: no spins, no counters. */
  function DefaultStats(now: int): WheelStats
  {
    WheelStats(0, now, map[])
  }

  /** `parsedData.totalSpins || 0`. */
  function LegacyTotalSpins(f: Field<int>): (n: int)
    ensures f.Value? && f.v != 0 ==> n == f.v
    ensures !(f.Value? && f.v != 0) ==> n == 0
  {
    if f.Value? && f.v != 0 then f.v else 0
  }

  /** `saveWheelStats`. */
  function SaveWheelStats(store: Store, stats: WheelStats): (s: Store)
    ensures s.stats == Stored(StatsRecord(stats))
    ensures s.options == store.options
  {
    store.(stats := Stored(StatsRecord(stats)))
  }

  /** `loadWheelStats`: missing, undecodable or `null` data gives the
      first-start statistics; an old record keeps its spin count (0 when
      falsy) and drops the per-option counters; a current record is
      returned as stored. */
  function LoadWheelStats(store: Store, now: int): (stats: WheelStats)
    ensures !store.stats.Stored? || store.stats.doc.StatsNull? ==> stats == DefaultStats(now)
    ensures store.stats.Stored? && store.stats.doc.LegacyStats? ==>
      stats == WheelStats(LegacyTotalSpins(store.stats.doc.totalSpins), now, map[])
    ensures store.stats.Stored? && store.stats.doc.StatsRecord? ==> stats == store.stats.doc.stats
  {
    match store.stats
    case Missing => DefaultStats(now)
    case Corrupt => DefaultStats(now)
    case Stored(StatsNull) => DefaultStats(now)
    case Stored(LegacyStats(totalSpins)) => WheelStats(LegacyTotalSpins(totalSpins), now, map[])
    case Stored(StatsRecord(stats)) => stats
  }

  /** Loading after saving returns the saved statistics. */
  lemma SaveThenLoadStats(store: Store, stats: WheelStats, now: int)
    ensures LoadWheelStats(SaveWheelStats(store, stats), now) == stats
  {
  }

  /** Loaded statistics keep the counters consistent with the spin count,
      provided the stored ones are: defaults and migrated records have no
      counters at all. */
  lemma LoadedStatsBounded(store: Store, now: int)
    requires store.stats.Stored? && store.stats.doc.StatsRecord? ==> Home.CountsBounded(store.stats.doc.stats)
    requires store.stats.Stored? && store.stats.doc.LegacyStats? && store.stats.doc.totalSpins.Value? ==>
      store.stats.doc.totalSpins.v >= 0
    ensures Home.CountsBounded(LoadWheelStats(store, now))
  {
  }
}
