/**
 * The popup's bookkeeping in popup.js: `getDedupedEntries`, which keeps
 * one recorded entry per endpoint, and `normalizeOpenApiSpec`, which
 * rewrites a generated OpenAPI document onto the observed backend origins
 * and path-only keys.
 *
 * `parse(url)` stands for `new URL(url)` (no base), `None` where it throws.
 */
module Popup {
  import opened Wrappers
  import opened Text
  import opened Json
  import opened Endpoint
  import opened Logs
  import opened Ordered

  // ---------------------------------------------------------------------------
  // getDedupedEntries

  /** `new Date(timestamp || 0).getTime()`, with `None` for NaN. */
  function TimeOf(s: Stamp): (t: Option<int>)
    ensures t.None? <==> s.BadStamp?
    ensures s.NoStamp? ==> t == Some(0)
    ensures s.At? ==> t == Some(s.ms)
  {
    match s
    case NoStamp => Some(0)
    case At(ms) => Some(ms)
    case BadStamp => None
  }

  /**
   * The key an entry is deduplicated by: its canonical key when that is
   * present and non-empty, otherwise origin, path and upper-cased method of
   * its URL, or the raw URL and method when the URL does not parse.
   */
  function DedupKey(e: LogEntry, parse: string -> Option<Url>): (key: string)
    ensures e.canonicalKey.Some? && e.canonicalKey.value != "" ==> key == e.canonicalKey.value
    ensures !(e.canonicalKey.Some? && e.canonicalKey.value != "") ==>
      key == CanonicalKeyFor(e.url, MethodOrGet(e.verb), parse) && EndsWith(key, "::" + ToUpper(MethodOrGet(e.verb)))
  {
    if e.canonicalKey.Some? && e.canonicalKey.value != "" then e.canonicalKey.value
    else CanonicalKeyFor(e.url, MethodOrGet(e.verb), parse)
  }

  /**
   * Whether a later entry with the same key replaces the kept one: it is
   * strictly newer (a NaN time compares false), or it has an object response
   * where the kept one has not.
   */
  predicate ChooseIncoming(existing: LogEntry, incoming: LogEntry) {
    var existingTime := TimeOf(existing.timestamp);
    var incomingTime := TimeOf(incoming.timestamp);
    (existingTime.Some? && incomingTime.Some? && incomingTime.value > existingTime.value)
    || (!IsObjectBody(existing.response) && IsObjectBody(incoming.response))
  }

  /** One iteration of the loop over the entries. */
  function DedupStep(acc: seq<(string, LogEntry)>, e: LogEntry, parse: string -> Option<Url>): (r: seq<(string, LogEntry)>)
    ensures |r| >= |acc| && forall i | 0 <= i < |r| :: r[i] == (DedupKey(e, parse), e) || (i < |acc| && r[i] == acc[i])
  {
    var key := DedupKey(e, parse);
    match Get(acc, key)
    case None => Put(acc, key, e)
    case Some(existing) => if ChooseIncoming(existing, e) then Put(acc, key, e) else acc
  }

  /**
   * The replacement rule: after a step, the entry's key holds the entry when
   * the key was new or the entry wins `ChooseIncoming`, and every other key
   * keeps its value.
   */
  lemma DedupStepGet(acc: seq<(string, LogEntry)>, e: LogEntry, parse: string -> Option<Url>, k: string)
    requires KeysDistinct(acc)
    ensures var key := DedupKey(e, parse);
      Get(DedupStep(acc, e, parse), k) ==
        if k == key && (Get(acc, key).None? || ChooseIncoming(Get(acc, key).value, e)) then Some(e)
        else Get(acc, k)
  {
    PutGet(acc, DedupKey(e, parse), e, k);
  }

  /** The `Map` after the loop has visited every entry of `entries`. */
  function Deduped(entries: seq<LogEntry>, parse: string -> Option<Url>): (m: seq<(string, LogEntry)>)
    ensures KeysDistinct(m)
  {
    if |entries| == 0 then []
    else DedupStep(Deduped(entries[..|entries| - 1], parse), entries[|entries| - 1], parse)
  }

  /** The keys of the entries, in order. */
  function DedupKeys(entries: seq<LogEntry>, parse: string -> Option<Url>): (ks: seq<string>)
    ensures |ks| == |entries| && forall i | 0 <= i < |entries| :: ks[i] == DedupKey(entries[i], parse)
  {
    seq(|entries|, i requires 0 <= i < |entries| => DedupKey(entries[i], parse))
  }

  /** `getDedupedEntries(schemas)` */
  method GetDedupedEntries(schemas: seq<LogEntry>, parse: string -> Option<Url>) returns (r: seq<LogEntry>)
    ensures r == ValuesOf(Deduped(schemas, parse))
  {
    var m: seq<(string, LogEntry)> := [];
    var i := 0;
    while i < |schemas|
      invariant 0 <= i <= |schemas|
      invariant m == Deduped(schemas[..i], parse)
    {
      var entry := schemas[i];
      var key := DedupKey(entry, parse);
      var existing := Get(m, key);
      if existing.None? {
        m := Put(m, key, entry);
      } else if ChooseIncoming(existing.value, entry) {
        m := Put(m, key, entry);
      }
      assert schemas[..i + 1][..i] == schemas[..i];
      i := i + 1;
    }
    assert schemas[..i] == schemas;
    r := ValuesOf(m);
  }

  /**
   * One entry per distinct key, in the order the keys are first seen (a
   * `Map` keeps a key's position when its value is replaced).
   */
  lemma {:induction false} DedupedKeysFirstSeen(entries: seq<LogEntry>, parse: string -> Option<Url>)
    ensures KeysOf(Deduped(entries, parse)) == Distinct(DedupKeys(entries, parse))
  {
    if |entries| > 0 {
      var n := |entries| - 1;
      var front := entries[..n];
      DedupedKeysFirstSeen(front, parse);
      var acc := Deduped(front, parse);
      var key := DedupKey(entries[n], parse);
      var before := DedupKeys(front, parse);
      DedupKeysSnoc(entries, parse);
      assert Deduped(entries, parse) == DedupStep(acc, entries[n], parse);
      DedupStepKeys(acc, entries[n], parse);
      DistinctSnoc(before, key);
      assert KeysOf(acc) == Distinct(before);
    } else {
      assert DedupKeys(entries, parse) == [];
    }
  }

  lemma DedupKeysSnoc(entries: seq<LogEntry>, parse: string -> Option<Url>)
    requires |entries| > 0
    ensures DedupKeys(entries, parse) ==
      DedupKeys(entries[..|entries| - 1], parse) + [DedupKey(entries[|entries| - 1], parse)]
  {
    var n := |entries| - 1;
    var ks := DedupKeys(entries, parse);
    assert ks[..n] == DedupKeys(entries[..n], parse);
    assert ks == ks[..n] + [ks[n]];
  }

  /** A step adds the entry's key at the end when it is new, and keeps the keys otherwise. */
  lemma DedupStepKeys(acc: seq<(string, LogEntry)>, e: LogEntry, parse: string -> Option<Url>)
    ensures var key := DedupKey(e, parse);
      KeysOf(DedupStep(acc, e, parse)) == if key in KeysOf(acc) then KeysOf(acc) else KeysOf(acc) + [key]
  {
    var key := DedupKey(e, parse);
    if key in KeysOf(acc) {
      assert Find(acc, key).Some?;
    } else {
      assert Find(acc, key).None?;
      assert KeysOf(acc + [(key, e)]) == KeysOf(acc) + [key];
    }
  }

  /** Every value of `m` is one of `entries`, filed under its own key. */
  predicate DrawnFrom(m: seq<(string, LogEntry)>, entries: seq<LogEntry>, parse: string -> Option<Url>) {
    forall i | 0 <= i < |m| :: m[i].1 in entries && m[i].0 == DedupKey(m[i].1, parse)
  }

  /** Every entry kept is one of the input entries, filed under its own key. */
  lemma {:induction false} DedupedFromInput(entries: seq<LogEntry>, parse: string -> Option<Url>)
    ensures DrawnFrom(Deduped(entries, parse), entries, parse)
  {
    if |entries| > 0 {
      var n := |entries| - 1;
      var front := entries[..n];
      DedupedFromInput(front, parse);
      var acc := Deduped(front, parse);
      var m := Deduped(entries, parse);
      assert m == DedupStep(acc, entries[n], parse);
      forall i | 0 <= i < |m|
        ensures m[i].1 in entries && m[i].0 == DedupKey(m[i].1, parse)
      {
        if m[i] != (DedupKey(entries[n], parse), entries[n]) {
          assert m[i] == acc[i];
          var j :| 0 <= j < n && front[j] == acc[i].1;
          assert entries[j] == front[j];
        }
      }
    }
  }

  /** An entry whose time is a number and whose response is an object. */
  predicate Comparable(e: LogEntry) {
    !e.timestamp.BadStamp? && IsObjectBody(e.response)
  }

  /** `kept` is at least as new as `e`. */
  predicate AtLeastAsNew(kept: LogEntry, e: LogEntry) {
    !kept.timestamp.BadStamp? && !e.timestamp.BadStamp? && TimeOf(e.timestamp).value <= TimeOf(kept.timestamp).value
  }

  /** For every entry of `entries`, `m` keeps one with its key that is at least as new. */
  predicate KeepsNewest(m: seq<(string, LogEntry)>, entries: seq<LogEntry>, parse: string -> Option<Url>) {
    forall j | 0 <= j < |entries| ::
      Get(m, DedupKey(entries[j], parse)).Some? && AtLeastAsNew(Get(m, DedupKey(entries[j], parse)).value, entries[j])
  }

  /** Every value of `m` is `Comparable`. */
  predicate AllComparable(m: seq<(string, LogEntry)>) {
    forall i | 0 <= i < |m| :: Comparable(m[i].1)
  }

  /** One loop iteration keeps `KeepsNewest` for the entries seen so far. */
  lemma DedupStepKeepsNewest(acc: seq<(string, LogEntry)>, front: seq<LogEntry>, e: LogEntry, parse: string -> Option<Url>)
    requires KeysDistinct(acc) && AllComparable(acc) && Comparable(e) && KeepsNewest(acc, front, parse)
    ensures AllComparable(DedupStep(acc, e, parse)) && KeepsNewest(DedupStep(acc, e, parse), front + [e], parse)
  {
    var key := DedupKey(e, parse);
    var r := DedupStep(acc, e, parse);
    var all := front + [e];
    var chosen := Get(acc, key).None? || ChooseIncoming(Get(acc, key).value, e);
    forall j | 0 <= j < |all|
      ensures Get(r, DedupKey(all[j], parse)).Some? && AtLeastAsNew(Get(r, DedupKey(all[j], parse)).value, all[j])
    {
      var kj := DedupKey(all[j], parse);
      if chosen {
        PutGet(acc, key, e, kj);
      }
      if j < |front| {
        assert all[j] == front[j];
      } else if !chosen {
        var idx :| 0 <= idx < |acc| && acc[idx].0 == key;
        assert Comparable(acc[idx].1);
      }
    }
  }

  /**
   * When every entry has a valid time and an object response, the entry
   * kept for a key is at least as new as every entry with that key.
   */
  lemma {:induction false} DedupedKeepsNewest(entries: seq<LogEntry>, parse: string -> Option<Url>)
    requires forall j | 0 <= j < |entries| :: Comparable(entries[j])
    ensures AllComparable(Deduped(entries, parse)) && KeepsNewest(Deduped(entries, parse), entries, parse)
  {
    if |entries| > 0 {
      var n := |entries| - 1;
      DedupedKeepsNewest(entries[..n], parse);
      assert entries == entries[..n] + [entries[n]];
      DedupStepKeepsNewest(Deduped(entries[..n], parse), entries[..n], entries[n], parse);
    }
  }

  // ---------------------------------------------------------------------------
  // normalizeOpenApiSpec

  /** A path item: operations by HTTP method, in member order. */
  type PathItem = seq<(string, Json)>

  /**
   * The members of an OpenAPI document that the normalisation touches;
   * `others` are the remaining members, copied unchanged.
   */
  datatype OpenApiSpec = OpenApiSpec(
    openapi: Option<string>,
    servers: Option<seq<string>>,   // the `url` of each server object
    paths: Option<seq<(string, PathItem)>>,
    others: map<string, Json>)

  /** The version written when the document has none. */
  const DefaultOpenApi := "3.0.3"

  /** The origin of a request URL, or `None` when it does not parse (or is empty, which `filter(Boolean)` drops). */
  function OriginOf(url: string, parse: string -> Option<Url>): (r: Option<string>)
    ensures r.Some? ==> r.value != "" && parse(url).Some? && r.value == parse(url).value.origin
  {
    match parse(url)
    case Some(u) => if u.origin != "" then Some(u.origin) else None
    case None => None
  }

  /** The origins of the requests that have one, in request order. */
  function Origins(urls: seq<string>, parse: string -> Option<Url>): (os: seq<string>)
    ensures forall o | o in os :: exists i | 0 <= i < |urls| :: OriginOf(urls[i], parse) == Some(o)
    ensures forall i | 0 <= i < |urls| && OriginOf(urls[i], parse).Some? :: OriginOf(urls[i], parse).value in os
  {
    if |urls| == 0 then []
    else
      var front := Origins(urls[..|urls| - 1], parse);
      assert forall i | 0 <= i < |urls| - 1 :: urls[..|urls| - 1][i] == urls[i];
      match OriginOf(urls[|urls| - 1], parse)
      case Some(o) => front + [o]
      case None => front
  }

  /** `new URL(key).pathname || '/'` for a key with a scheme, then a leading `/` added when missing. */
  function PathKey(key: string, parse: string -> Option<Url>): (nk: string)
    ensures StartsWith(nk, "/")
    ensures StartsWith(key, "/") && !Contains(key, "://") ==> nk == key
  {
    var stripped :=
      if Contains(key, "://") then
        match parse(key)
        case Some(u) => if u.pathname == "" then "/" else u.pathname
        case None => key
      else key;
    if StartsWith(stripped, "/") then stripped else "/" + stripped
  }

  /** One iteration of the `forEach` over the path keys. */
  function PathsStep(acc: seq<(string, PathItem)>, key: string, item: PathItem, parse: string -> Option<Url>): (r: seq<(string, PathItem)>)
    ensures KeysOf(r) == KeysOf(acc) || KeysOf(r) == KeysOf(acc) + [PathKey(key, parse)]
    ensures PathKey(key, parse) in KeysOf(r)
  {
    var nk := PathKey(key, parse);
    match Get(acc, nk)
    case None => Put(acc, nk, item)
    case Some(prev) => Put(acc, nk, Spread(prev, item))
  }

  /** `newPaths` after the `forEach` has visited every key of `paths`. */
  function NormalizedPaths(paths: seq<(string, PathItem)>, parse: string -> Option<Url>): (r: seq<(string, PathItem)>)
    ensures KeysDistinct(r)
  {
    if |paths| == 0 then []
    else
      var n := |paths| - 1;
      PathsStep(NormalizedPaths(paths[..n], parse), paths[n].0, paths[n].1, parse)
  }

  /** The normalised document. */
  function Normalized(spec: OpenApiSpec, requestUrls: seq<string>, parse: string -> Option<Url>): OpenApiSpec {
    spec.(
      openapi := if spec.openapi.None? || spec.openapi.value == "" then Some(DefaultOpenApi) else spec.openapi,
      servers := Some(Distinct(Origins(requestUrls, parse))),
      paths := Some(NormalizedPaths(spec.paths.GetOr([]), parse)))
  }

  /** `normalizeOpenApiSpec(spec, interestingRequests)`; each request is given by its `url`, the only member read. */
  method NormalizeOpenApiSpec(spec: OpenApiSpec, requestUrls: seq<string>, parse: string -> Option<Url>) returns (r: OpenApiSpec)
    ensures r == Normalized(spec, requestUrls, parse)
  {
    var uniqueOrigins := Distinct(Origins(requestUrls, parse));
    r := spec;
    if r.openapi.None? || r.openapi.value == "" {
      r := r.(openapi := Some(DefaultOpenApi));
    }
    r := r.(servers := Some(uniqueOrigins));
    var paths := spec.paths.GetOr([]);
    var newPaths: seq<(string, PathItem)> := [];
    var i := 0;
    while i < |paths|
      invariant 0 <= i <= |paths|
      invariant newPaths == NormalizedPaths(paths[..i], parse)
    {
      var (key, item) := paths[i];
      var newKey := PathKey(key, parse);
      var existing := Get(newPaths, newKey);
      if existing.None? {
        newPaths := Put(newPaths, newKey, item);
      } else {
        newPaths := Put(newPaths, newKey, Spread(existing.value, item));
      }
      assert paths[..i + 1][..i] == paths[..i];
      i := i + 1;
    }
    assert paths[..i] == paths;
    r := r.(paths := Some(newPaths));
  }

  /**
   * The document keeps a non-empty version and gets "3.0.3" otherwise; its
   * servers are exactly the distinct request origins, first-seen order, each
   * once, whatever servers it had; every other member is unchanged.
   */
  lemma NormalizedHeader(spec: OpenApiSpec, requestUrls: seq<string>, parse: string -> Option<Url>)
    ensures var r := Normalized(spec, requestUrls, parse);
      && (spec.openapi.Some? && spec.openapi.value != "" ==> r.openapi == spec.openapi)
      && (spec.openapi.None? || spec.openapi.value == "" ==> r.openapi == Some(DefaultOpenApi))
      && r.servers.Some? && NoDuplicates(r.servers.value)
      && (forall o | o in r.servers.value :: exists i | 0 <= i < |requestUrls| :: OriginOf(requestUrls[i], parse) == Some(o))
      && (forall i | 0 <= i < |requestUrls| && OriginOf(requestUrls[i], parse).Some? ::
            OriginOf(requestUrls[i], parse).value in r.servers.value)
      && r.others == spec.others
      && r == Normalized(spec.(servers := None), requestUrls, parse)
  {
    DistinctNoDuplicates(Origins(requestUrls, parse));
  }

  /** Every normalised key of `paths` is a key of `r`. */
  predicate CoversPaths(r: seq<(string, PathItem)>, paths: seq<(string, PathItem)>, parse: string -> Option<Url>) {
    forall i | 0 <= i < |paths| :: PathKey(paths[i].0, parse) in KeysOf(r)
  }

  /** Every normalised input key is a key of the result. */
  lemma {:induction false} NormalizedPathKeysCovered(paths: seq<(string, PathItem)>, parse: string -> Option<Url>)
    ensures CoversPaths(NormalizedPaths(paths, parse), paths, parse)
  {
    if |paths| > 0 {
      var n := |paths| - 1;
      var front := paths[..n];
      NormalizedPathKeysCovered(front, parse);
      assert paths == front + [paths[n]];
      PathsStepCovers(NormalizedPaths(front, parse), front, paths[n].0, paths[n].1, parse);
    }
  }

  /** A step covers the keys covered before and its own key. */
  lemma PathsStepCovers(acc: seq<(string, PathItem)>, front: seq<(string, PathItem)>, key: string, item: PathItem,
                        parse: string -> Option<Url>)
    requires CoversPaths(acc, front, parse)
    ensures CoversPaths(PathsStep(acc, key, item, parse), front + [(key, item)], parse)
  {
    var paths := front + [(key, item)];
    forall i | 0 <= i < |paths|
      ensures PathKey(paths[i].0, parse) in KeysOf(PathsStep(acc, key, item, parse))
    {
      if i < |front| {
        assert paths[i] == front[i];
        PathsStepKeepsKeys(acc, key, item, parse, PathKey(front[i].0, parse));
      }
    }
  }

  /** A step loses no key. */
  lemma PathsStepKeepsKeys(acc: seq<(string, PathItem)>, key: string, item: PathItem, parse: string -> Option<Url>, k: string)
    requires k in KeysOf(acc)
    ensures k in KeysOf(PathsStep(acc, key, item, parse))
  {
    var r := PathsStep(acc, key, item, parse);
    var idx :| 0 <= idx < |acc| && KeysOf(acc)[idx] == k;
    assert KeysOf(r)[idx] == k;
  }

  /** Every key of `r` is a normalised key of `paths`, and so starts with `/`. */
  predicate KeysFromPaths(r: seq<(string, PathItem)>, paths: seq<(string, PathItem)>, parse: string -> Option<Url>) {
    forall i | 0 <= i < |r| :: StartsWith(r[i].0, "/") && exists j | 0 <= j < |paths| :: PathKey(paths[j].0, parse) == r[i].0
  }

  /** Every key of the result is a normalised input key, and so starts with `/`. */
  lemma {:induction false} NormalizedPathKeysDrawn(paths: seq<(string, PathItem)>, parse: string -> Option<Url>)
    ensures KeysFromPaths(NormalizedPaths(paths, parse), paths, parse)
  {
    if |paths| > 0 {
      var n := |paths| - 1;
      var front := paths[..n];
      NormalizedPathKeysDrawn(front, parse);
      var acc := NormalizedPaths(front, parse);
      var r := NormalizedPaths(paths, parse);
      assert r == PathsStep(acc, paths[n].0, paths[n].1, parse);
      forall i | 0 <= i < |r|
        ensures StartsWith(r[i].0, "/") && exists j | 0 <= j < |paths| :: PathKey(paths[j].0, parse) == r[i].0
      {
        if i < |acc| {
          assert KeysOf(r)[i] == KeysOf(acc)[i];
          var j :| 0 <= j < |front| && PathKey(front[j].0, parse) == acc[i].0;
          assert paths[j] == front[j];
        } else {
          assert r[i].0 == PathKey(paths[n].0, parse);
        }
      }
    }
  }

  /**
   * The operation for `verb` under normalised key `nk`, taken from the last
   * input path item whose key normalises to `nk` and that has `verb`.
   */
  function LastOperation(paths: seq<(string, PathItem)>, nk: string, verb: string, parse: string -> Option<Url>): (r: Option<Json>)
    ensures r.Some? ==> exists i | 0 <= i < |paths| :: PathKey(paths[i].0, parse) == nk && verb in KeysOf(paths[i].1)
  {
    if |paths| == 0 then None
    else
      var n := |paths| - 1;
      if PathKey(paths[n].0, parse) == nk && verb in KeysOf(paths[n].1) then Get(paths[n].1, verb)
      else LastOperation(paths[..n], nk, verb, parse)
  }

  /** `newPaths[nk][verb]` */
  function OperationAt(newPaths: seq<(string, PathItem)>, nk: string, verb: string): Option<Json> {
    match Get(newPaths, nk)
    case None => None
    case Some(item) => Get(item, verb)
  }

  /** Path items whose operations are keyed by distinct methods. */
  predicate ItemsDistinct(paths: seq<(string, PathItem)>) {
    forall i | 0 <= i < |paths| :: KeysDistinct(paths[i].1)
  }

  /** One iteration of the `forEach`: the item's operations override those already under its key. */
  lemma PathsStepOperation(acc: seq<(string, PathItem)>, key: string, item: PathItem, nk: string, verb: string,
                           parse: string -> Option<Url>)
    requires KeysDistinct(acc) && ItemsDistinct(acc) && KeysDistinct(item)
    ensures ItemsDistinct(PathsStep(acc, key, item, parse))
    ensures OperationAt(PathsStep(acc, key, item, parse), nk, verb) ==
      if PathKey(key, parse) == nk && verb in KeysOf(item) then Get(item, verb) else OperationAt(acc, nk, verb)
  {
    var pk := PathKey(key, parse);
    var newItem := match Get(acc, pk) case None => item case Some(prev) => Spread(prev, item);
    var r := Put(acc, pk, newItem);
    assert PathsStep(acc, key, item, parse) == r;
    if Get(acc, pk).Some? {
      var idx :| 0 <= idx < |acc| && acc[idx].0 == pk;
      assert KeysDistinct(acc[idx].1);
      SpreadGet(Get(acc, pk).value, item, verb);
    }
    assert KeysDistinct(newItem);
    forall i | 0 <= i < |r|
      ensures KeysDistinct(r[i].1)
    {
      if r[i] != (pk, newItem) {
        assert r[i] == acc[i];
      }
    }
    PutGet(acc, pk, newItem, nk);
  }

  /**
   * When two input keys collide, their operations are merged and a later
   * item's operation for a method replaces an earlier one's.
   */
  lemma {:induction false} LaterMethodsWin(paths: seq<(string, PathItem)>, nk: string, verb: string, parse: string -> Option<Url>)
    requires ItemsDistinct(paths)
    ensures ItemsDistinct(NormalizedPaths(paths, parse))
    ensures OperationAt(NormalizedPaths(paths, parse), nk, verb) == LastOperation(paths, nk, verb, parse)
  {
    if |paths| > 0 {
      var n := |paths| - 1;
      var front := paths[..n];
      assert ItemsDistinct(front) by {
        forall i | 0 <= i < n ensures KeysDistinct(front[i].1) {
          assert front[i] == paths[i];
        }
      }
      LaterMethodsWin(front, nk, verb, parse);
      PathsStepOperation(NormalizedPaths(front, parse), paths[n].0, paths[n].1, nk, verb, parse);
    }
  }
}
