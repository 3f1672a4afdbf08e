/**
 * Dot-separated host names: Python's `str.split` and `str.join` on one
 * separator character, the `^www.` regular-expression strip, and the three
 * label helpers the subdomains scanner uses (base domain, subdomain part,
 * wildcard form).
 */
module Labels {

  /** `s.split(sep)`: never empty, and no part contains the separator. */
  function Split(s: string, sep: char): (parts: seq<string>)
    ensures |parts| >= 1
    ensures forall i :: 0 <= i < |parts| ==> sep !in parts[i]
  {
    if s == [] then [[]]
    else
      var rest := Split(s[1..], sep);
      if s[0] == sep then [[]] + rest
      else [[s[0]] + rest[0]] + rest[1..]
  }

  /** `str.join(sep, parts)`. */
  function Join(parts: seq<string>, sep: char): string
  {
    if parts == [] then []
    else if |parts| == 1 then parts[0]
    else parts[0] + [sep] + Join(parts[1..], sep)
  }

  /** Joining what was split gives the string back. */
  lemma {:induction false} JoinSplit(s: string, sep: char)
    ensures Join(Split(s, sep), sep) == s
  {
    if s != [] {
      JoinSplit(s[1..], sep);
      var rest := Split(s[1..], sep);
      assert [s[0]] + s[1..] == s;
      if s[0] != sep && |rest| > 1 {
        assert rest == [rest[0]] + rest[1..];
      }
    }
  }

  /** A string without the separator is a single part. */
  lemma {:induction false} SplitWithoutSeparator(a: string, sep: char)
    requires sep !in a
    ensures Split(a, sep) == [a]
  {
    if a != [] {
      SplitWithoutSeparator(a[1..], sep);
      assert [a[0]] + a[1..] == a;
    }
  }

  /** Splitting at the first separator peels off the first part. */
  lemma {:induction false} SplitFirstPart(a: string, b: string, sep: char)
    requires sep !in a
    ensures Split(a + [sep] + b, sep) == [a] + Split(b, sep)
  {
    var s := a + [sep] + b;
    if a == [] {
      assert s[1..] == b;
    } else {
      assert s[1..] == a[1..] + [sep] + b;
      SplitFirstPart(a[1..], b, sep);
      assert [a[0]] + a[1..] == a;
    }
  }

  /** Joining a concatenation puts one separator between the two joins. */
  lemma {:induction false} JoinAppend(xs: seq<string>, ys: seq<string>, sep: char)
    requires |xs| >= 1 && |ys| >= 1
    ensures Join(xs + ys, sep) == Join(xs, sep) + [sep] + Join(ys, sep)
  {
    if |xs| > 1 {
      JoinAppend(xs[1..], ys, sep);
      assert (xs + ys)[1..] == xs[1..] + ys;
    }
  }

  /**
   * `re.sub("^www.", "", s)`: the dot is not escaped, so it stands for any
   * character but a newline, and only a match at the start is removed.
   */
  function StripWww(s: string): (r: string)
    ensures |r| == |s| || |r| == |s| - 4
    ensures r == s[|s| - |r|..]
  {
    if |s| >= 4 && s[..3] == "www" && s[3] != '\n' then s[4..] else s
  }

  /** The labels of a host name. */
  function LabelsOf(s: string): seq<string>
  {
    Split(s, '.')
  }

  /** `utils.base_domain_for`: the last two labels (all of them when there are fewer). */
  function BaseDomainFor(s: string): string
  {
    var ls := LabelsOf(s);
    Join(if |ls| >= 2 then ls[|ls| - 2..] else ls, '.')
  }

  /** `subdomains_for`: `str.join(".", subdomain.split(".")[:-2])`. */
  function SubdomainsFor(s: string): string
  {
    var ls := LabelsOf(s);
    Join(if |ls| >= 2 then ls[..|ls| - 2] else [], '.')
  }

  /** `wildcard_for`: `"*." + str.join(".", subdomain.split(".")[1:])`. */
  function WildcardFor(s: string): string
  {
    "*." + Join(LabelsOf(s)[1..], '.')
  }

  /** The subdomain part and the base domain put back together give the name. */
  lemma SubdomainsThenBase(s: string)
    requires |LabelsOf(s)| >= 3
    ensures SubdomainsFor(s) + "." + BaseDomainFor(s) == s
  {
    var ls := LabelsOf(s);
    var n := |ls|;
    assert ls == ls[..n - 2] + ls[n - 2..];
    JoinAppend(ls[..n - 2], ls[n - 2..], '.');
    JoinSplit(s, '.');
  }

  /** A name of at most two labels is its own base domain and has no subdomain part. */
  lemma ShortNameIsOwnBase(s: string)
    requires |LabelsOf(s)| <= 2
    ensures BaseDomainFor(s) == s
    ensures SubdomainsFor(s) == ""
  {
    var ls := LabelsOf(s);
    assert |ls| == 2 ==> ls[|ls| - 2..] == ls;
    JoinSplit(s, '.');
  }

  /** The base domain has exactly the last two labels of the name. */
  lemma BaseDomainLabels(s: string)
    requires |LabelsOf(s)| >= 2
    ensures LabelsOf(BaseDomainFor(s)) == LabelsOf(s)[|LabelsOf(s)| - 2..]
  {
    var ls := LabelsOf(s);
    var n := |ls|;
    assert '.' !in ls[n - 2];
    assert ls[n - 2..] == [ls[n - 2], ls[n - 1]];
    assert Join(ls[n - 2..], '.') == ls[n - 2] + "." + ls[n - 1];
    SplitFirstPart(ls[n - 2], ls[n - 1], '.');
    SplitWithoutSeparator(ls[n - 1], '.');
  }

  /** The wildcard form replaces the first label by `*`. */
  lemma WildcardReplacesFirstLabel(first: string, rest: string)
    requires '.' !in first
    ensures WildcardFor(first + "." + rest) == "*." + rest
  {
    SplitFirstPart(first, rest, '.');
    assert LabelsOf(first + "." + rest)[1..] == Split(rest, '.');
    JoinSplit(rest, '.');
  }

  /** A single label has the bare `*.` as its wildcard form. */
  lemma WildcardOfSingleLabel(s: string)
    requires '.' !in s
    ensures WildcardFor(s) == "*."
  {
    SplitWithoutSeparator(s, '.');
  }

  /** A three-label name splits into its three labels. */
  lemma ThreeLabels(a: string, b: string, c: string)
    requires '.' !in a && '.' !in b && '.' !in c
    ensures LabelsOf(a + "." + b + "." + c) == [a, b, c]
    ensures BaseDomainFor(a + "." + b + "." + c) == b + "." + c
    ensures SubdomainsFor(a + "." + b + "." + c) == a
    ensures WildcardFor(a + "." + b + "." + c) == "*." + b + "." + c
  {
    var s := a + "." + b + "." + c;
    assert s == a + ['.'] + (b + "." + c);
    SplitFirstPart(a, b + "." + c, '.');
    SplitFirstPart(b, c, '.');
    SplitWithoutSeparator(c, '.');
    assert LabelsOf(s) == [a, b, c];
    assert LabelsOf(s)[1..] == [b, c];
    assert Join([b, c], '.') == b + "." + c;
  }

  /** Two parts joined. */
  lemma JoinTwo(b: string, c: string, sep: char)
    ensures Join([b, c], sep) == b + [sep] + c
  {
    assert [b, c][1..] == [c];
  }

  /** A two-label name splits into its two labels and is its own base domain. */
  lemma TwoLabels(b: string, c: string)
    requires '.' !in b && '.' !in c
    ensures LabelsOf(b + "." + c) == [b, c]
    ensures BaseDomainFor(b + "." + c) == b + "." + c
  {
    var s := b + "." + c;
    assert s == b + ['.'] + c;
    SplitFirstPart(b, c, '.');
    SplitWithoutSeparator(c, '.');
    var ls := LabelsOf(s);
    assert ls == [b, c];
    assert ls[|ls| - 2..] == ls;
    JoinTwo(b, c, '.');
  }

  /** The documented example: `abc.mountains.gov` has wildcard form `*.mountains.gov`. */
  lemma WildcardExample(s: string)
    requires s == "abc.mountains.gov"
    ensures WildcardFor(s) == "*.mountains.gov"
    ensures SubdomainsFor(s) == "abc"
    ensures BaseDomainFor(s) == "mountains.gov"
  {
    var a, b, c := "abc", "mountains", "gov";
    assert s == a + "." + b + "." + c;
    ThreeLabels(a, b, c);
  }

  /** The unescaped dot strips `www` followed by ANY character (not just `.`). */
  lemma StripWwwAnyFourthCharacter(c: char, rest: string)
    requires c != '\n'
    ensures StripWww("www" + [c] + rest) == rest
  {
    var s := "www" + [c] + rest;
    assert s[..3] == "www";
    assert s[4..] == rest;
  }
}
