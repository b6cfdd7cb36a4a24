/**
 * The logs the background scripts keep of observed responses:
 *
 * - `RecordingLog`: `recordingLog` of background.js, upserted by canonical
 *   key, with a schema merged into the stored one.
 * - `TrackerLog`: `recordingLog` of api-tracker-visualizer/background.js,
 *   upserted by URL for GET.
 * - `SchemaStore`: the stored `schemas` list of
 *   good-request-tracking/background.js, appended to and cut to its newest
 *   100 entries.
 *
 * The clock, the random id and the URL parser are parameters.
 */
module Logs {
  import opened Wrappers
  import opened Text
  import opened Schemas
  import opened Endpoint
  import SchemaMerge

  /** What an entry's `response` holds; `typeof` is "object" for a schema and for `null`. */
  datatype Body = SchemaBody(schema: Schema) | NullBody | NoBody | TextBody(text: string)

  predicate IsObjectBody(b: Body) {
    b.SchemaBody? || b.NullBody?
  }

  /**
   * An entry's `timestamp`, by what `new Date(timestamp || 0).getTime()`
   * makes of it: absent (read as 0), an instant in milliseconds, or a string
   * that does not parse (NaN).
   */
  datatype Stamp = NoStamp | At(ms: int) | BadStamp

  /** One element of the recording log. */
  datatype LogEntry = LogEntry(
    url: string,
    verb: Option<string>,          // "method"
    canonicalKey: Option<string>,
    response: Body,
    timestamp: Stamp)

  /** `log.findIndex(e => e.canonicalKey === key)`, with `None` for -1. */
  function FindKey(log: seq<LogEntry>, key: string): (r: Option<nat>)
    ensures r.Some? ==> r.value < |log| && log[r.value].canonicalKey == Some(key)
    ensures r.Some? ==> forall j | 0 <= j < r.value :: log[j].canonicalKey != Some(key)
    ensures r.None? ==> forall j | 0 <= j < |log| :: log[j].canonicalKey != Some(key)
  {
    if |log| == 0 then None
    else if log[0].canonicalKey == Some(key) then Some(0)
    else match FindKey(log[1..], key)
      case Some(i) => Some(i + 1)
      case None => None
  }

  /** No two entries share a canonical key. */
  predicate KeysUnique(log: seq<LogEntry>) {
    forall i, j | 0 <= i < j < |log| && log[i].canonicalKey.Some? :: log[i].canonicalKey != log[j].canonicalKey
  }

  /** The response after folding `schema` into an existing entry's response with the merge `mode`. */
  function FoldedResponse(mode: SchemaMerge.Mode, existing: Body, schema: Schema): Body {
    match existing
    case SchemaBody(s) => SchemaBody(SchemaMerge.MergeNodes(mode, s, schema))
    case _ => SchemaBody(schema)
  }

  /** The canonical key `addSchemaEntry` files a response under. */
  function EntryKey(url: string, verb: Option<string>, resolve: string -> Option<Url>): string {
    CanonicalKeyFor(ToAbsoluteUrl(url, resolve), ToUpper(MethodOrGet(verb)), resolve)
  }

  /**
   * The log after `addSchemaEntry(url, schema, verb)` at time `now`, with
   * responses folded by the merge `mode`.
   */
  function Upserted(mode: SchemaMerge.Mode, log: seq<LogEntry>, url: string, schema: Schema, verb: Option<string>, now: int,
                    resolve: string -> Option<Url>): seq<LogEntry>
  {
    var key := EntryKey(url, verb, resolve);
    match FindKey(log, key)
    case Some(i) => log[i := log[i].(response := FoldedResponse(mode, log[i].response, schema), timestamp := At(now))]
    case None =>
      log + [LogEntry(ToAbsoluteUrl(url, resolve), Some(ToUpper(MethodOrGet(verb))), Some(key), SchemaBody(schema), At(now))]
  }

  /**
   * The upsert either updates the one entry with the key (new response and
   * timestamp, everything else kept) or appends one new entry, and every
   * other entry is untouched.
   */
  lemma UpsertedSpec(mode: SchemaMerge.Mode, log: seq<LogEntry>, url: string, schema: Schema, verb: Option<string>, now: int,
                     resolve: string -> Option<Url>)
    ensures var key := EntryKey(url, verb, resolve);
      var r := Upserted(mode, log, url, schema, verb, now, resolve);
      match FindKey(log, key)
      case Some(i) =>
        && |r| == |log|
        && (forall j | 0 <= j < |log| && j != i :: r[j] == log[j])
        && r[i].url == log[i].url && r[i].verb == log[i].verb && r[i].canonicalKey == Some(key)
        && r[i].timestamp == At(now)
        && (log[i].response.SchemaBody? ==>
              r[i].response == SchemaBody(SchemaMerge.MergeNodes(mode, log[i].response.schema, schema)))
        && (!log[i].response.SchemaBody? ==> r[i].response == SchemaBody(schema))
      case None =>
        && |r| == |log| + 1 && r[..|log|] == log
        && r[|log|].canonicalKey == Some(key) && r[|log|].response == SchemaBody(schema)
        && r[|log|].timestamp == At(now)
  {
  }

  /** The upsert keeps canonical keys unique, and afterwards exactly one entry has the new key. */
  lemma UpsertedKeepsKeysUnique(mode: SchemaMerge.Mode, log: seq<LogEntry>, url: string, schema: Schema, verb: Option<string>, now: int,
                                resolve: string -> Option<Url>)
    requires KeysUnique(log)
    ensures var r := Upserted(mode, log, url, schema, verb, now, resolve);
      && KeysUnique(r)
      && exists i | 0 <= i < |r| :: r[i].canonicalKey == Some(EntryKey(url, verb, resolve))
  {
    var key := EntryKey(url, verb, resolve);
    var r := Upserted(mode, log, url, schema, verb, now, resolve);
    match FindKey(log, key)
    case Some(i) =>
      assert forall j | 0 <= j < |r| :: r[j].canonicalKey == log[j].canonicalKey;
    case None =>
      assert forall j | 0 <= j < |log| :: r[j] == log[j];
      assert r[|log|].canonicalKey == Some(key);
  }

  /** `recordingLog` of background.js. */
  class RecordingLog {
    var entries: seq<LogEntry>

    /** Recording starts with an empty log. */
    constructor()
      ensures entries == []
    {
      entries := [];
    }

    /** `addSchemaEntry(url, schema, method)` at time `now`, merging as written. */
    method AddSchemaEntry(url: string, schema: Schema, verb: Option<string>, now: int, resolve: string -> Option<Url>)
      modifies this
      ensures entries == Upserted(SchemaMerge.AsWritten, old(entries), url, schema, verb, now, resolve)
    {
      var absUrl := ToAbsoluteUrl(url, resolve);
      var methodUp := ToUpper(MethodOrGet(verb));
      var key := CanonicalKeyFor(absUrl, methodUp, resolve);
      var matchIdx := FindKey(entries, key);
      if matchIdx.Some? && IsObjectBody(entries[matchIdx.value].response) {
        var i := matchIdx.value;
        var merged := SchemaMerge.MergeSchemas(SchemaMerge.AsWritten, ResponseSchema(entries[i].response), Some(schema));
        entries := entries[i := entries[i].(response := SchemaBody(merged.value), timestamp := At(now))];
      } else if matchIdx.Some? {
        var i := matchIdx.value;
        entries := entries[i := entries[i].(response := SchemaBody(schema), timestamp := At(now))];
      } else {
        entries := entries + [LogEntry(absUrl, Some(methodUp), Some(key), SchemaBody(schema), At(now))];
      }
    }
  }

  /** The operand `mergeSchemas` receives for a stored response: a schema, or the falsy `null`. */
  function ResponseSchema(b: Body): (r: Option<Schema>)
    ensures r.Some? <==> b.SchemaBody?
  {
    if b.SchemaBody? then Some(b.schema) else None
  }

  // ---------------------------------------------------------------------------
  // api-tracker-visualizer/background.js

  /** `log.findIndex(e => e.url === url && e.method === 'GET')` */
  function FindGet(log: seq<LogEntry>, url: string): (r: Option<nat>)
    ensures r.Some? ==> r.value < |log| && log[r.value].url == url && log[r.value].verb == Some("GET")
    ensures r.Some? ==> forall j | 0 <= j < r.value :: !(log[j].url == url && log[j].verb == Some("GET"))
    ensures r.None? ==> forall j | 0 <= j < |log| :: !(log[j].url == url && log[j].verb == Some("GET"))
  {
    if |log| == 0 then None
    else if log[0].url == url && log[0].verb == Some("GET") then Some(0)
    else match FindGet(log[1..], url)
      case Some(i) => Some(i + 1)
      case None => None
  }

  /** No two GET entries share a URL. */
  predicate GetUrlsUnique(log: seq<LogEntry>) {
    forall i, j | 0 <= i < j < |log| && log[i].verb == Some("GET") && log[j].verb == Some("GET") :: log[i].url != log[j].url
  }

  /** The log after api-tracker-visualizer's `addSchemaEntry(url, schema)` at time `now`. */
  function TrackerUpserted(log: seq<LogEntry>, url: string, schema: Schema, now: int): (r: seq<LogEntry>)
    ensures FindGet(log, url).Some? ==> |r| == |log|
    ensures FindGet(log, url).None? ==> |r| == |log| + 1 && r[..|log|] == log
  {
    match FindGet(log, url)
    case Some(i) => log[i := log[i].(response := SchemaBody(schema))]
    case None => log + [LogEntry(url, Some("GET"), None, SchemaBody(schema), At(now))]
  }

  /**
   * Only the response of the matching GET entry is replaced (its timestamp is
   * kept), or one GET entry is appended; every other entry is untouched, and
   * GET URLs stay unique.
   */
  lemma TrackerUpsertedSpec(log: seq<LogEntry>, url: string, schema: Schema, now: int)
    ensures var r := TrackerUpserted(log, url, schema, now);
      && (forall j | 0 <= j < |log| && (j != FindGet(log, url).GetOr(|log|)) :: r[j] == log[j])
      && (FindGet(log, url).Some? ==>
            var i := FindGet(log, url).value; r[i] == log[i].(response := SchemaBody(schema)))
      && (FindGet(log, url).None? ==>
            r[|log|] == LogEntry(url, Some("GET"), None, SchemaBody(schema), At(now)))
    ensures GetUrlsUnique(log) ==> GetUrlsUnique(TrackerUpserted(log, url, schema, now))
  {
  }

  /** `recordingLog` of api-tracker-visualizer/background.js. */
  class TrackerLog {
    var entries: seq<LogEntry>

    constructor()
      ensures entries == []
    {
      entries := [];
    }

    /** `addSchemaEntry(url, schema)` at time `now`. */
    method AddSchemaEntry(url: string, schema: Schema, now: int)
      modifies this
      ensures entries == TrackerUpserted(old(entries), url, schema, now)
    {
      var matchIdx := FindGet(entries, url);
      if matchIdx.Some? {
        var i := matchIdx.value;
        entries := entries[i := entries[i].(response := SchemaBody(schema))];
      } else {
        entries := entries + [LogEntry(url, Some("GET"), None, SchemaBody(schema), At(now))];
      }
    }
  }

  // ---------------------------------------------------------------------------
  // good-request-tracking/background.js

  /** One element of the stored `schemas` list. */
  datatype StoredSchema = StoredSchema(url: string, schema: Schema, timestamp: int, id: string)

  /** How many entries the store keeps. */
  const StoreLimit: nat := 100

  /** `list.slice(-n)`: the last `n` elements, or all of them when there are fewer. */
  function LastN<T>(list: seq<T>, n: nat): (r: seq<T>)
    ensures |r| == if |list| < n then |list| else n
    ensures r == list[|list| - |r|..]
  {
    if |list| <= n then list else list[|list| - n..]
  }

  /** The stored `schemas` of good-request-tracking/background.js. */
  class SchemaStore {
    var schemas: seq<StoredSchema>

    constructor()
      ensures schemas == []
    {
      schemas := [];
    }

    /**
     * `addSchemaEntry(url, schema)` at time `now` with the random `id`: push
     * the entry, then keep the newest `StoreLimit`.
     */
    method AddSchemaEntry(url: string, schema: Schema, now: int, id: string)
      modifies this
      ensures schemas == LastN(old(schemas) + [StoredSchema(url, schema, now, id)], StoreLimit)
      ensures |schemas| <= StoreLimit && |schemas| > 0
      ensures schemas[|schemas| - 1] == StoredSchema(url, schema, now, id)
      ensures |old(schemas)| < StoreLimit ==> schemas == old(schemas) + [StoredSchema(url, schema, now, id)]
    {
      var pushed := schemas + [StoredSchema(url, schema, now, id)];
      schemas := LastN(pushed, StoreLimit);
    }
  }

  /**
   * Appending to a full store drops exactly the oldest entry: the store is
   * the newest 100 of everything appended so far.
   */
  lemma {:induction false} StoreKeepsNewest(stored: seq<StoredSchema>, added: seq<StoredSchema>)
    ensures LastN(LastN(stored, StoreLimit) + added, StoreLimit) == LastN(stored + added, StoreLimit)
  {
    var s := LastN(stored, StoreLimit);
    var whole := stored + added;
    var cut := s + added;
    assert s == stored[|stored| - |s|..];
    assert cut == whole[|stored| - |s|..];
    var r1, r2 := LastN(cut, StoreLimit), LastN(whole, StoreLimit);
    if |cut| <= StoreLimit {
      if |s| < |stored| {
        assert |added| == 0;
        assert cut == s && whole == stored;
      }
    } else {
      assert r1 == cut[|cut| - StoreLimit..];
      assert r2 == whole[|whole| - StoreLimit..];
    }
  }
}
