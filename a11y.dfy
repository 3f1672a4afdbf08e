/**
 * The accessibility scanner: pick the domain to scan (following a
 * redirect), take pa11y's `'error'` results from its cache or from a fresh
 * run, and project each into a row.
 *
 * `pa11y` is an oracle: `None` for empty output, otherwise the parsed list
 * of results. The cache is a map from domain to entry, and every pa11y run
 * is logged.
 */
module A11y {
  import opened Wrappers

  /** One pa11y result; `kind` is its `'type'` field. */
  datatype Result = Result(kind: string, typeCode: int, code: string, message: string, context: string, selector: string)

  /** The fields of the inspect record this scanner reads. */
  datatype InspectData = InspectData(redirect: bool, redirectTo: Option<string>)

  /** A cache entry: the invalid marker written for empty output, or the stored results. */
  datatype Entry = Invalid | Stored(results: seq<Result>)

  /** One output row, in the order of `Headers`. */
  datatype Row = Row(redirectedTo: string, typeCode: int, code: string, message: string, context: string, selector: string)

  const Headers: seq<string> := ["redirectedTo", "typeCode", "code", "message", "context", "selector"]

  /** The row `scan` yields for one error. */
  function ErrorRow(domainToScan: string, e: Result): Row
  {
    Row(domainToScan, e.typeCode, e.code, e.message, e.context, e.selector)
  }

  predicate IsError(r: Result)
  {
    r.kind == "error"
  }

  /** `get_domain_to_scan`: the redirect target when the inspection says there is a redirect. */
  function DomainToScan(data: InspectData, domain: string): (d: Option<string>)
    ensures data.redirect ==> d == data.redirectTo
    ensures !data.redirect ==> d == Some(domain)
  {
    if data.redirect then data.redirectTo else Some(domain)
  }

  /** The `'error'` results, in order (defined from the end, the way the loop grows its list). */
  function Errors(results: seq<Result>): seq<Result>
  {
    if results == [] then []
    else
      var last := results[|results| - 1];
      Errors(results[..|results| - 1]) + (if IsError(last) then [last] else [])
  }

  /** Filtering distributes over concatenation, so it keeps the input's order. */
  lemma {:induction false} ErrorsAppend(a: seq<Result>, b: seq<Result>)
    ensures Errors(a + b) == Errors(a) + Errors(b)
    decreases |b|
  {
    if b == [] {
      assert a + b == a;
    } else {
      var c := b[..|b| - 1];
      assert (a + b)[..|a + b| - 1] == a + c;
      var last := b[|b| - 1];
      assert (a + b)[|a + b| - 1] == last;
      var tail := if IsError(last) then [last] else [];
      ErrorsAppend(a, c);
      assert Errors(a + b) == Errors(a + c) + tail;
      assert Errors(b) == Errors(c) + tail;
    }
  }

  /** The errors are exactly the input's `'error'` results, and there are no more of them than results. */
  lemma {:induction false} ErrorsAreTheErrorResults(results: seq<Result>)
    ensures forall r :: r in Errors(results) <==> r in results && IsError(r)
    ensures |Errors(results)| <= |results|
  {
    if results != [] {
      var init := results[..|results| - 1];
      ErrorsAreTheErrorResults(init);
      assert results == init + [results[|results| - 1]];
    }
  }

  /** Filtering twice is filtering once: results read back from the cache are the errors stored. */
  lemma {:induction false} ErrorsIdempotent(results: seq<Result>)
    ensures Errors(Errors(results)) == Errors(results)
  {
    if results != [] {
      var init := results[..|results| - 1];
      var last := results[|results| - 1];
      ErrorsIdempotent(init);
      ErrorsAppend(Errors(init), if IsError(last) then [last] else []);
      if IsError(last) {
        assert Errors([last]) == Errors([]) + [last];
      }
    }
  }

  /** `get_errors_from_results`: a loop that appends each `'error'` result. */
  method ErrorsFromResults(results: seq<Result>) returns (errors: seq<Result>)
    ensures errors == Errors(results)
  {
    errors := [];
    var i := 0;
    while i < |results|
      invariant 0 <= i <= |results|
      invariant errors == Errors(results[..i])
    {
      if results[i].kind == "error" {
        errors := errors + [results[i]];
      }
      assert results[..i + 1][..i] == results[..i];
      i := i + 1;
    }
    assert results[..i] == results;
  }

  /** What reading a cache entry returns. */
  function FromEntry(e: Entry): (errors: seq<Result>)
    ensures e.Invalid? ==> errors == []
    ensures forall r :: r in errors ==> IsError(r)
  {
    match e
    case Invalid => []
    case Stored(results) => ErrorsAreTheErrorResults(results); Errors(results)
  }

  /** The entry a pa11y run leaves in the cache. */
  function EntryFor(output: Option<seq<Result>>): Entry
  {
    match output
    case None => Invalid
    case Some(results) => Stored(Errors(results))
  }

  /** Reading back what a run stored gives what the run returned. */
  lemma ReadBackIsRunResult(output: Option<seq<Result>>)
    ensures FromEntry(EntryFor(output)) == (if output.None? then [] else Errors(output.value))
  {
    if output.Some? {
      ErrorsIdempotent(output.value);
    }
  }

  /** The `a11y` cache files, as a map, with a log of pa11y runs. */
  class A11yCache {
    var entries: map<string, Entry>
    var scans: seq<string>

    constructor ()
      ensures entries == map[] && scans == []
    {
      entries := map[];
      scans := [];
    }

    /** `get_errors_from_pa11y_scan`: run pa11y, cache the invalid marker or the errors. */
    method Pa11yScan(domain: string, pa11y: string -> Option<seq<Result>>) returns (errors: seq<Result>)
      modifies this
      ensures scans == old(scans) + [domain]
      ensures entries == old(entries)[domain := EntryFor(pa11y(domain))]
      ensures pa11y(domain).None? ==> errors == [] && entries[domain] == Invalid
      ensures pa11y(domain).Some? ==> errors == Errors(pa11y(domain).value) && entries[domain] == Stored(errors)
    {
      var raw := pa11y(domain);
      scans := scans + [domain];
      if raw.None? {
        entries := entries[domain := Invalid];
        return [];
      }
      errors := ErrorsFromResults(raw.value);
      entries := entries[domain := Stored(errors)];
    }

    /**
     * `get_errors_from_scan_or_cache`: the cache is read iff an entry exists
     * and `force` is not set; otherwise pa11y runs.
     */
    method ErrorsFromScanOrCache(domain: string, force: bool, pa11y: string -> Option<seq<Result>>)
      returns (errors: seq<Result>)
      modifies this
      ensures domain in old(entries) && !force ==>
        errors == FromEntry(old(entries)[domain]) && entries == old(entries) && scans == old(scans)
      ensures domain !in old(entries) || force ==>
        errors == FromEntry(EntryFor(pa11y(domain)))
        && entries == old(entries)[domain := EntryFor(pa11y(domain))]
        && scans == old(scans) + [domain]
    {
      var isCached := domain in entries;
      var notForced := !force;
      if isCached && notForced {
        var data := entries[domain];
        if data.Invalid? {
          return [];
        }
        errors := ErrorsFromResults(data.results);
      } else {
        errors := Pa11yScan(domain, pa11y);
        ReadBackIsRunResult(pa11y(domain));
      }
    }
  }

  /** A row per error, in order, each headed by the scanned domain. */
  method ProjectRows(domainToScan: string, errors: seq<Result>) returns (rows: seq<Row>)
    ensures |rows| == |errors|
    ensures forall i :: 0 <= i < |rows| ==> rows[i] == ErrorRow(domainToScan, errors[i])
    ensures forall i :: 0 <= i < |rows| ==> rows[i].redirectedTo == domainToScan && rows[i].code == errors[i].code
  {
    rows := [];
    for i := 0 to |errors|
      invariant |rows| == i
      invariant forall k :: 0 <= k < i ==> rows[k] == ErrorRow(domainToScan, errors[k])
    {
      var data := errors[i];
      rows := rows + [Row(domainToScan, data.typeCode, data.code, data.message, data.context, data.selector)];
    }
  }

  /** `scan(domain, options)`: the rows for the errors of the domain to scan. */
  method Scan(domain: string, data: InspectData, force: bool, pa11y: string -> Option<seq<Result>>, cache: A11yCache)
    returns (rows: seq<Row>)
    requires data.redirect ==> data.redirectTo.Some?
    modifies cache
    ensures var target := DomainToScan(data, domain).value;
            var hit := target in old(cache.entries) && !force;
            var errors := if hit then FromEntry(old(cache.entries)[target]) else FromEntry(EntryFor(pa11y(target)));
            && |rows| == |errors|
            && (forall i :: 0 <= i < |rows| ==> rows[i] == ErrorRow(target, errors[i]))
            && (hit ==> cache.entries == old(cache.entries) && cache.scans == old(cache.scans))
            && (!hit ==> cache.entries == old(cache.entries)[target := EntryFor(pa11y(target))]
                         && cache.scans == old(cache.scans) + [target])
  {
    var domainToScan := DomainToScan(data, domain).value;
    var errors := cache.ErrorsFromScanOrCache(domainToScan, force, pa11y);
    rows := ProjectRows(domainToScan, errors);
  }

  /** Scanning twice without `force` runs pa11y at most once and yields the same rows. */
  method ScanTwice(domain: string, data: InspectData, pa11y: string -> Option<seq<Result>>, cache: A11yCache)
    returns (first: seq<Row>, second: seq<Row>)
    requires data.redirect ==> data.redirectTo.Some?
    modifies cache
    ensures first == second
    ensures var target := DomainToScan(data, domain).value;
            var hit := target in old(cache.entries);
            var errors := if hit then FromEntry(old(cache.entries)[target]) else FromEntry(EntryFor(pa11y(target)));
            && |first| == |errors|
            && (forall i :: 0 <= i < |first| ==> first[i] == ErrorRow(target, errors[i]))
            && cache.entries == (if hit then old(cache.entries) else old(cache.entries)[target := EntryFor(pa11y(target))])
            && cache.scans == old(cache.scans) + (if hit then [] else [target])
  {
    first := Scan(domain, data, false, pa11y, cache);
    second := Scan(domain, data, false, pa11y, cache);
  }
}
