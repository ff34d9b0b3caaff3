/**
 * `validateDomain` (client/frame.js): the frame source must match
 *   ^(?:https?:)?\/\/(([a-z0-9]+(-[a-z0-9]+)*\.)+[a-z]{2,}(:[0-9]{2,})?)(\/|$)
 * case-insensitively; group 1 is reported as the hostname.
 * The pattern is modelled by a hand-written recogniser (`ValidateDomain`) and,
 * independently, by a grammar in the pattern's own shape (`UrlMatch`); the two
 * are proved to agree on every URL and every hostname.
 */
module Domain {
  import opened Wrappers
  import opened Text

  const DomainError: string := "Error: frame src must include domain name"

  /** Character classes under the `i` flag: ASCII letters of either case. */
  predicate IsLetter(c: char) { 'a' <= c <= 'z' || 'A' <= c <= 'Z' }
  predicate IsDigit(c: char) { '0' <= c <= '9' }
  predicate IsAlnum(c: char) { IsLetter(c) || IsDigit(c) }
  predicate LabelChar(c: char) { IsAlnum(c) || c == '-' }
  predicate DomainChar(c: char) { LabelChar(c) || c == '.' }

  /** `[a-z0-9]+` */
  predicate IsAlnumRun(s: string)
  {
    |s| >= 1 && forall i :: 0 <= i < |s| ==> IsAlnum(s[i])
  }

  /** `[a-z0-9]+(-[a-z0-9]+)*`: alphanumeric runs separated by single hyphens. */
  predicate IsLabel(s: string)
  {
    var runs := Split(s, '-');
    forall i :: 0 <= i < |runs| ==> IsAlnumRun(runs[i])
  }

  /** `[a-z]{2,}` */
  predicate IsTld(s: string)
  {
    |s| >= 2 && forall i :: 0 <= i < |s| ==> IsLetter(s[i])
  }

  /** `(:[0-9]{2,})?` */
  predicate IsPort(s: string)
  {
    |s| == 0 || (s[0] == ':' && |s| >= 3 && forall i :: 1 <= i < |s| ==> IsDigit(s[i]))
  }

  /** `([a-z0-9]+(-[a-z0-9]+)*\.)+[a-z]{2,}`: dot-separated labels ending in a top-level domain. */
  predicate IsDomainName(d: string)
  {
    var segs := Split(d, '.');
    && |segs| >= 2
    && (forall i :: 0 <= i < |segs| - 1 ==> IsLabel(segs[i]))
    && IsTld(segs[|segs| - 1])
  }

  /** Group 1: a domain name, then an optional port after the first colon. */
  predicate IsHost(h: string)
  {
    var i := IndexOf(h, ':');
    IsDomainName(h[..i]) && IsPort(h[i..])
  }

  function Lower(c: char): char
  {
    if 'A' <= c <= 'Z' then (c as int + 32) as char else c
  }

  /** `s` begins with the lower-case literal `lit`, ignoring ASCII case. */
  predicate StartsWithIgnoringCase(s: string, lit: string)
  {
    |lit| <= |s| && forall i :: 0 <= i < |lit| ==> Lower(s[i]) == lit[i]
  }

  /** Length of the `(?:https?:)?\/\/` prefix the URL starts with, if any. */
  function SchemeLength(url: string): (k: Option<nat>)
    ensures k.Some? ==> k.value <= |url|
  {
    if StartsWithIgnoringCase(url, "//") then Some(2)
    else if StartsWithIgnoringCase(url, "http://") then Some(7)
    else if StartsWithIgnoringCase(url, "https://") then Some(8)
    else None
  }

  /** The object `validateDomain` returns: `{src, hostname}` or `{src, error}`. */
  datatype Checked = Checked(src: string, hostname: Option<string>, error: Option<string>)

  function ValidateDomain(url: string): (r: Checked)
    ensures r.src == url
    ensures r.hostname.Some? != r.error.Some?
    ensures r.error.Some? ==> r.error.value == DomainError
  {
    match SchemeLength(url)
    case None => Checked(url, None, Some(DomainError))
    case Some(k) =>
      var rest := url[k..];
      var h := rest[..IndexOf(rest, '/')];
      if IsHost(h) then Checked(url, Some(h), None) else Checked(url, None, Some(DomainError))
  }

  // ---------------------------------------------------------------------------
  // The pattern as a grammar, in its own shape.

  /** `(label\.)+` with the repetition's parts listed: each label followed by a dot. */
  function Dotted(labels: seq<string>): string
  {
    if |labels| == 0 then "" else labels[0] + "." + Dotted(labels[1..])
  }

  /** `(?:https?:)?\/\/` matched in full, ignoring case. */
  predicate IsScheme(s: string)
  {
    || (|s| == 2 && StartsWithIgnoringCase(s, "//"))
    || (|s| == 7 && StartsWithIgnoringCase(s, "http://"))
    || (|s| == 8 && StartsWithIgnoringCase(s, "https://"))
  }

  /** `h` is `labels`, each followed by a dot, then `tld`, then `port`. */
  ghost predicate ShapeWitness(h: string, labels: seq<string>, tld: string, port: string)
  {
    && |labels| >= 1
    && (forall i :: 0 <= i < |labels| ==> IsLabel(labels[i]))
    && IsTld(tld)
    && IsPort(port)
    && h == Dotted(labels) + tld + port
  }

  /** Group 1 of the pattern matches `h`. */
  ghost predicate HostShape(h: string)
  {
    exists labels: seq<string>, tld: string, port: string :: ShapeWitness(h, labels, tld, port)
  }

  /** `url` is `scheme`, then the host `h`, then a slash or nothing (`tail` is what follows). */
  ghost predicate UrlWitness(url: string, h: string, scheme: string, tail: string)
  {
    && IsScheme(scheme)
    && HostShape(h)
    && url == scheme + h + tail
    && (tail == "" || tail[0] == '/')
  }

  /** The whole pattern matches `url` with group 1 equal to `h`. */
  ghost predicate UrlMatch(url: string, h: string)
  {
    exists scheme: string, tail: string :: UrlWitness(url, h, scheme, tail)
  }

  // ---------------------------------------------------------------------------
  // Recogniser and grammar agree.

  lemma LabelChars(s: string)
    requires IsLabel(s)
    ensures forall k :: 0 <= k < |s| ==> LabelChar(s[k])
  {
    var runs := Split(s, '-');
    JoinSplit(s, '-');
    JoinChars(runs, '-', LabelChar);
  }

  lemma {:induction false} DottedJoin(labels: seq<string>, tld: string)
    ensures Dotted(labels) + tld == Join(labels + [tld], '.')
    decreases |labels|
  {
    if |labels| == 0 {
      assert labels + [tld] == [tld];
    } else {
      DottedJoin(labels[1..], tld);
      assert (labels + [tld])[1..] == labels[1..] + [tld];
      assert (labels + [tld])[0] == labels[0];
    }
  }

  lemma NoCharOutside(s: string, c: char, ok: char -> bool)
    requires forall k :: 0 <= k < |s| ==> ok(s[k])
    requires !ok(c)
    ensures c !in s
  {
    forall k | 0 <= k < |s| ensures s[k] != c { }
  }

  /** Labels and a top-level domain are made of label characters. */
  lemma SegmentChars(labels: seq<string>, tld: string)
    requires forall i :: 0 <= i < |labels| ==> IsLabel(labels[i])
    requires IsTld(tld)
    ensures forall i, k :: 0 <= i < |labels + [tld]| && 0 <= k < |(labels + [tld])[i]| ==>
              LabelChar((labels + [tld])[i][k])
  {
    var segs := labels + [tld];
    forall i, k | 0 <= i < |segs| && 0 <= k < |segs[i]|
      ensures LabelChar(segs[i][k])
    {
      if i < |labels| {
        LabelChars(labels[i]);
      }
    }
  }

  /** Labels and a top-level domain hold no dot. */
  lemma SegmentsNoDot(labels: seq<string>, tld: string)
    requires forall i :: 0 <= i < |labels| ==> IsLabel(labels[i])
    requires IsTld(tld)
    ensures forall i :: 0 <= i < |labels + [tld]| ==> '.' !in (labels + [tld])[i]
  {
    var segs := labels + [tld];
    forall i | 0 <= i < |segs| ensures '.' !in segs[i] {
      if i < |labels| {
        LabelChars(labels[i]);
        NoCharOutside(labels[i], '.', LabelChar);
      } else {
        NoCharOutside(tld, '.', IsLetter);
      }
    }
  }

  /** Splitting labels-then-top-level-domain at the dots gives the parts back. */
  lemma SplitDotted(labels: seq<string>, tld: string)
    requires forall i :: 0 <= i < |labels| ==> IsLabel(labels[i])
    requires IsTld(tld)
    ensures Split(Dotted(labels) + tld, '.') == labels + [tld]
  {
    SegmentsNoDot(labels, tld);
    SplitJoin(labels + [tld], '.');
    DottedJoin(labels, tld);
  }

  lemma DomainOfParts(d: string, labels: seq<string>, tld: string)
    requires |labels| >= 1
    requires forall i :: 0 <= i < |labels| ==> IsLabel(labels[i])
    requires IsTld(tld)
    requires Split(d, '.') == labels + [tld]
    ensures IsDomainName(d)
  {
    var segs := labels + [tld];
    assert forall i :: 0 <= i < |segs| - 1 ==> segs[i] == labels[i];
  }

  /** Labels followed by a top-level domain form a domain name. */
  lemma DomainFromShape(labels: seq<string>, tld: string)
    requires |labels| >= 1
    requires forall i :: 0 <= i < |labels| ==> IsLabel(labels[i])
    requires IsTld(tld)
    ensures IsDomainName(Dotted(labels) + tld)
  {
    SplitDotted(labels, tld);
    DomainOfParts(Dotted(labels) + tld, labels, tld);
  }

  /** Labels followed by a top-level domain are made of domain characters. */
  lemma DomainCharsFromShape(labels: seq<string>, tld: string)
    requires forall i :: 0 <= i < |labels| ==> IsLabel(labels[i])
    requires IsTld(tld)
    ensures forall k :: 0 <= k < |Dotted(labels) + tld| ==> DomainChar((Dotted(labels) + tld)[k])
  {
    SegmentChars(labels, tld);
    DottedJoin(labels, tld);
    JoinChars(labels + [tld], '.', DomainChar);
  }

  lemma HostOfParts(d: string, port: string)
    requires IsDomainName(d) && IsPort(port)
    requires ':' !in d
    ensures IsHost(d + port)
  {
    var h := d + port;
    IndexOfConcat(d, port, ':');
    assert h[..|d|] == d;
    assert h[|d|..] == port;
  }

  /** A host built in the pattern's shape is accepted by the recogniser and holds no slash. */
  lemma HostFromShape(labels: seq<string>, tld: string, port: string)
    requires |labels| >= 1
    requires forall i :: 0 <= i < |labels| ==> IsLabel(labels[i])
    requires IsTld(tld) && IsPort(port)
    ensures IsHost(Dotted(labels) + tld + port)
    ensures '/' !in Dotted(labels) + tld + port
  {
    var d := Dotted(labels) + tld;
    HostCharsFromShape(labels, tld, port);
    DomainFromShape(labels, tld);
    HostOfParts(d, port);
  }

  lemma HostCharsFromShape(labels: seq<string>, tld: string, port: string)
    requires forall i :: 0 <= i < |labels| ==> IsLabel(labels[i])
    requires IsTld(tld) && IsPort(port)
    ensures ':' !in Dotted(labels) + tld
    ensures '/' !in Dotted(labels) + tld + port
  {
    var d := Dotted(labels) + tld;
    DomainCharsFromShape(labels, tld);
    forall k | 0 <= k < |d| ensures d[k] != ':' {
      assert DomainChar(d[k]);
    }
    NoSlash(d, port);
  }

  lemma NoSlash(d: string, port: string)
    requires forall k :: 0 <= k < |d| ==> DomainChar(d[k])
    requires IsPort(port)
    ensures '/' !in d + port
  {
    var h := d + port;
    forall k | 0 <= k < |h| ensures h[k] != '/' {
      if k < |d| { assert h[k] == d[k]; } else { assert h[k] == port[k - |d|]; }
    }
  }

  /** A domain name is labels, each followed by a dot, then a top-level domain. */
  lemma ShapeFromDomain(d: string) returns (labels: seq<string>, tld: string)
    requires IsDomainName(d)
    ensures |labels| >= 1
    ensures forall j :: 0 <= j < |labels| ==> IsLabel(labels[j])
    ensures IsTld(tld)
    ensures d == Dotted(labels) + tld
  {
    var segs := Split(d, '.');
    var n := |segs| - 1;
    labels, tld := segs[..n], segs[n];
    assert labels + [tld] == segs;
    JoinSplit(d, '.');
    DottedJoin(labels, tld);
  }

  /** A host the recogniser accepts has the pattern's shape. */
  lemma ShapeFromHost(h: string)
    requires IsHost(h)
    ensures HostShape(h)
  {
    var i := IndexOf(h, ':');
    var d, port := h[..i], h[i..];
    var labels, tld := ShapeFromDomain(d);
    assert h == d + port;
    assert ShapeWitness(h, labels, tld, port);
  }

  lemma SchemeLengthOf(scheme: string, rest: string)
    requires IsScheme(scheme)
    ensures SchemeLength(scheme + rest) == Some(|scheme|)
  {
    var url := scheme + rest;
    assert forall i :: 0 <= i < |scheme| ==> url[i] == scheme[i];
    if |scheme| == 2 {
      assert StartsWithIgnoringCase(url, "//");
    } else if |scheme| == 7 {
      assert Lower(url[0]) == 'h';
      assert StartsWithIgnoringCase(url, "http://");
    } else {
      assert Lower(url[0]) == 'h' && Lower(url[4]) == 's';
      assert !StartsWithIgnoringCase(url, "http://");
      assert StartsWithIgnoringCase(url, "https://");
    }
  }

  /** The prefix `SchemeLength` measures is a scheme of the pattern. */
  lemma SchemeOfLength(url: string)
    requires SchemeLength(url).Some?
    ensures IsScheme(url[..SchemeLength(url).value])
  {
    var k := SchemeLength(url).value;
    assert forall i :: 0 <= i < k ==> url[..k][i] == url[i];
    if k == 2 {
      assert StartsWithIgnoringCase(url[..k], "//");
    } else if k == 7 {
      assert StartsWithIgnoringCase(url[..k], "http://");
    } else {
      assert StartsWithIgnoringCase(url[..k], "https://");
    }
  }

  /** The host candidate after the scheme is followed by a slash or nothing. */
  lemma CandidateSplit(url: string, k: nat)
    requires k <= |url|
    ensures var rest := url[k..];
            var j := IndexOf(rest, '/');
            && url == url[..k] + rest[..j] + rest[j..]
            && (rest[j..] == "" || rest[j..][0] == '/')
  {
    var rest := url[k..];
    var j := IndexOf(rest, '/');
    assert j < |rest| ==> rest[j..][0] == rest[j];
    var a, b, c := url[..k], rest[..j], rest[j..];
    assert url == a + rest;
    assert rest == b + c;
    assert a + (b + c) == a + b + c;
  }

  /** What the recogniser checked when it reports a hostname. */
  lemma HostOfValidate(url: string) returns (k: nat, tail: string)
    requires ValidateDomain(url).hostname.Some?
    ensures k <= |url| && IsScheme(url[..k])
    ensures var h := ValidateDomain(url).hostname.value;
      && IsHost(h)
      && url == url[..k] + h + tail
      && (tail == "" || tail[0] == '/')
  {
    k := SchemeLength(url).value;
    var rest := url[k..];
    var j := IndexOf(rest, '/');
    tail := rest[j..];
    SchemeOfLength(url);
    CandidateSplit(url, k);
  }

  lemma MatchFromValidate(url: string, h: string)
    requires ValidateDomain(url).hostname == Some(h)
    ensures UrlMatch(url, h)
  {
    var k, tail := HostOfValidate(url);
    ShapeFromHost(h);
    assert UrlWitness(url, h, url[..k], tail);
  }

  /** The recogniser reports a slash-free host that follows a scheme and precedes a slash or the end. */
  lemma ValidateOfParts(url: string, k: nat, h: string, tail: string)
    requires k <= |url| && SchemeLength(url) == Some(k)
    requires url[k..] == h + tail
    requires '/' !in h && (tail == "" || tail[0] == '/')
    requires IsHost(h)
    ensures ValidateDomain(url).hostname == Some(h)
  {
    var rest := url[k..];
    IndexOfConcat(h, tail, '/');
    assert rest[..|h|] == h;
  }

  lemma ValidateFromMatch(url: string, h: string)
    requires UrlMatch(url, h)
    ensures ValidateDomain(url).hostname == Some(h)
  {
    var scheme, tail :| UrlWitness(url, h, scheme, tail);
    assert IsHost(h) && '/' !in h by {
      var labels, tld, port :| ShapeWitness(h, labels, tld, port);
      HostFromShape(labels, tld, port);
    }
    assert url == scheme + (h + tail);
    SchemeLengthOf(scheme, h + tail);
    assert url[|scheme|..] == h + tail;
    ValidateOfParts(url, |scheme|, h, tail);
  }

  /**
   * The recogniser reports hostname `h` exactly when the pattern matches the
   * URL with group 1 equal to `h`.
   */
  lemma ValidateDomainMatches(url: string, h: string)
    ensures ValidateDomain(url).hostname == Some(h) <==> UrlMatch(url, h)
  {
    if ValidateDomain(url).hostname == Some(h) {
      MatchFromValidate(url, h);
    }
    if UrlMatch(url, h) {
      ValidateFromMatch(url, h);
    }
  }
}
