/**
 * `network_check` of the subdomains scanner: a read-through cache, keyed by
 * subdomain, of one HTTP fetch and up to two DNS lookups, and the decision
 * whether the subdomain's DNS answer is just the wildcard record's answer.
 *
 * `curl` (through `utils.scan`) and `dig +short` (through
 * `utils.unsafe_execute`) are oracles: `None` stands for a failed command,
 * a string for its output. Every call is appended to a log so that what the
 * network saw can be stated.
 */
module Probe {
  import opened Wrappers
  import opened Labels
  import opened LineSort

  /** The cached `data['response']`. */
  datatype ProbeEntry = ProbeEntry(
    content: Option<string>,
    wildcardDns: Option<seq<string>>,
    selfDns: Option<seq<string>>,
    matchedWild: bool)

  /** The two external commands. */
  datatype Network = Network(fetch: string -> Option<string>, dig: string -> Option<string>)

  /** One external command run: `curl --silent --insecure <url>` or `dig +short '<name>'`. */
  datatype NetCall = Fetch(url: string) | Dig(name: string)

  /** An answer list as stored: present only for truthy output, its lines sorted. */
  function ParseAnswers(raw: Option<string>): (r: Option<seq<string>>)
    ensures r.Some? <==> Truthy(raw)
    ensures r.Some? ==> Sorted(r.value) && multiset(r.value) == multiset(Split(raw.value, '\n'))
  {
    if Truthy(raw) then SortIsSorted(Split(raw.value, '\n')); Some(Sort(Split(raw.value, '\n')))
    else None
  }

  /** The output of the subdomain's own lookup: not run when the wildcard lookup printed nothing. */
  function SelfAnswer(sub: string, rawWild: Option<string>, net: Network): Option<string>
  {
    if rawWild == Some("") then None else net.dig(sub)
  }

  /** `matched_wild`: a non-empty wildcard list equal to the subdomain's list. */
  predicate Matches(wild: Option<seq<string>>, self: Option<seq<string>>)
  {
    wild.Some? && wild.value != [] && wild == self
  }

  /** The entry a fetch cycle produces for `sub`, fetching `url`. */
  function ProbeCycle(sub: string, url: string, net: Network): ProbeEntry
  {
    var rawWild := net.dig(WildcardFor(sub));
    var wild := ParseAnswers(rawWild);
    var self := ParseAnswers(SelfAnswer(sub, rawWild, net));
    ProbeEntry(net.fetch(url), wild, self, Matches(wild, self))
  }

  /** The commands a fetch cycle runs, in order. */
  function ProbeCalls(sub: string, url: string, net: Network): seq<NetCall>
  {
    [Fetch(url), Dig(WildcardFor(sub))]
      + (if net.dig(WildcardFor(sub)) == Some("") then [] else [Dig(sub)])
  }

  /** What every entry this engine writes satisfies. */
  predicate WellFormed(e: ProbeEntry)
  {
    && (e.wildcardDns.Some? ==> Sorted(e.wildcardDns.value))
    && (e.selfDns.Some? ==> Sorted(e.selfDns.value))
    && (e.matchedWild <==> Matches(e.wildcardDns, e.selfDns))
  }

  lemma ProbeWellFormed(sub: string, url: string, net: Network)
    ensures WellFormed(ProbeCycle(sub, url, net))
  {
  }

  /**
   * The wildcard match is order-independent: it holds iff both lookups
   * printed something and they printed the same lines, in any order.
   */
  lemma MatchedIffSameLines(sub: string, url: string, net: Network)
    ensures var rawWild := net.dig(WildcardFor(sub));
            var rawSelf := SelfAnswer(sub, rawWild, net);
            ProbeCycle(sub, url, net).matchedWild <==>
              Truthy(rawWild) && Truthy(rawSelf)
              && multiset(Split(rawWild.value, '\n')) == multiset(Split(rawSelf.value, '\n'))
  {
    var rawWild := net.dig(WildcardFor(sub));
    var rawSelf := SelfAnswer(sub, rawWild, net);
    if Truthy(rawWild) && Truthy(rawSelf) {
      SortIgnoresOrder(Split(rawWild.value, '\n'), Split(rawSelf.value, '\n'));
      assert Sort(Split(rawWild.value, '\n')) != [] by {
        assert |multiset(Sort(Split(rawWild.value, '\n')))| == |Split(rawWild.value, '\n')| >= 1;
      }
    }
  }

  /**
   * An empty wildcard answer never matches and the subdomain's own name is
   * not looked up: the cycle runs exactly the fetch and the wildcard lookup.
   */
  lemma EmptyWildcardSkipsSelfLookup(sub: string, url: string, net: Network)
    requires net.dig(WildcardFor(sub)) == Some("")
    ensures ProbeCalls(sub, url, net) == [Fetch(url), Dig(WildcardFor(sub))]
    ensures !ProbeCycle(sub, url, net).matchedWild
    ensures ProbeCycle(sub, url, net).wildcardDns == None && ProbeCycle(sub, url, net).selfDns == None
  {
  }

  /** Only a failed or answered wildcard lookup leads to a lookup of the name itself. */
  lemma SelfLookupOnlyAfterWildcardOutput(sub: string, url: string, net: Network)
    ensures |ProbeCalls(sub, url, net)| == 3 <==> net.dig(WildcardFor(sub)) != Some("")
    ensures ProbeCalls(sub, url, net)[..2] == [Fetch(url), Dig(WildcardFor(sub))]
  {
  }

  /** The probe cache: `utils.cache_path(subdomain, "subdomains")` files, as a map. */
  class ProbeCache {
    var entries: map<string, ProbeEntry>
    /** Every external command run so far. */
    var calls: seq<NetCall>

    ghost predicate Valid()
      reads this
    {
      forall sub :: sub in entries ==> WellFormed(entries[sub])
    }

    constructor ()
      ensures Valid()
      ensures entries == map[] && calls == []
    {
      entries := map[];
      calls := [];
    }

    /**
     * `network_check(subdomain, endpoint, options)`: without `force`, a
     * cached entry is returned and nothing is run; otherwise one fetch cycle
     * runs and its entry replaces whatever was cached.
     */
    method NetworkCheck(sub: string, url: string, force: bool, net: Network) returns (response: ProbeEntry)
      requires Valid()
      modifies this
      ensures Valid()
      ensures sub in entries && response == entries[sub]
      ensures WellFormed(response)
      ensures !force && sub in old(entries) ==>
        response == old(entries)[sub] && entries == old(entries) && calls == old(calls)
      ensures force || sub !in old(entries) ==>
        response == ProbeCycle(sub, url, net)
        && entries == old(entries)[sub := response]
        && calls == old(calls) + ProbeCalls(sub, url, net)
    {
      var wildcard := WildcardFor(sub);
      if !force && sub in entries {
        response := entries[sub];
      } else {
        var content := net.fetch(url);
        calls := calls + [Fetch(url)];
        var rawWild := net.dig(wildcard);
        calls := calls + [Dig(wildcard)];
        var rawSelf: Option<string>;
        if rawWild == Some("") {
          rawWild, rawSelf := None, None;
        } else {
          rawSelf := net.dig(sub);
          calls := calls + [Dig(sub)];
        }
        var parsedWild := ParseAnswers(rawWild);
        var parsedSelf := ParseAnswers(rawSelf);
        var matchedWild := parsedWild.Some? && parsedWild.value != [] && parsedWild == parsedSelf;
        response := ProbeEntry(content, parsedWild, parsedSelf, matchedWild);
        entries := entries[sub := response];
      }
    }
  }

  /**
   * Two checks of the same subdomain without `force` run at most one fetch
   * cycle between them, and the second returns what the first did.
   */
  method CheckTwice(cache: ProbeCache, sub: string, url: string, net: Network)
    returns (first: ProbeEntry, second: ProbeEntry)
    requires cache.Valid()
    modifies cache
    ensures cache.Valid()
    ensures second == first
    ensures first == if sub in old(cache.entries) then old(cache.entries)[sub] else ProbeCycle(sub, url, net)
    ensures cache.entries == if sub in old(cache.entries) then old(cache.entries) else old(cache.entries)[sub := first]
    ensures cache.calls == old(cache.calls)
      + (if sub in old(cache.entries) then [] else ProbeCalls(sub, url, net))
  {
    first := cache.NetworkCheck(sub, url, false, net);
    second := cache.NetworkCheck(sub, url, false, net);
  }
}
