/** `parse_github_url`: `re.match` of
    https://github\.com/([^/]+)/([^/]+)/pull/(\d+)
    written out as a hand matcher over the characters of the URL. The match
    is anchored at the start only; text after the digits is ignored. */
module UrlParser {
  import opened Wrappers
  import opened Decimal

  /** The three captured groups, all kept as text (the number is a digit string). */
  datatype PrRef = PrRef(owner: string, repo: string, number: string)

  const GithubPrefix: string := "https://github.com/"
  const PullMarker: string := "/pull/"

  /** What `[^/]+` can capture. */
  predicate IsSegment(s: string) {
    |s| > 0 && forall i :: 0 <= i < |s| ==> s[i] != '/'
  }

  /** What `\d+` can capture (ASCII digits only). */
  predicate IsNumeral(s: string) {
    |s| > 0 && AllDigits(s)
  }

  /** The text the pattern consumes when it captures `r`. */
  function MatchedText(r: PrRef): string {
    GithubPrefix + r.owner + "/" + r.repo + PullMarker + r.number
  }

  /** Reference definition of a successful `re.match` with groups `r`: the URL
      begins with the matched text, every group is what its class admits, and
      the greedy `\d+` stopped because no further digit follows. */
  ghost predicate IsMatch(url: string, r: PrRef) {
    && IsSegment(r.owner) && IsSegment(r.repo) && IsNumeral(r.number)
    && MatchedText(r) <= url
    && (|url| == |MatchedText(r)| || !IsDigit(url[|MatchedText(r)|]))
  }

  /** Length of the run of non-`/` characters at the front of `s`. */
  function SegmentEnd(s: string): (k: nat)
    ensures k <= |s|
    ensures forall i :: 0 <= i < k ==> s[i] != '/'
    ensures k == |s| || s[k] == '/'
  {
    if |s| == 0 || s[0] == '/' then 0 else 1 + SegmentEnd(s[1..])
  }

  /** Length of the run of ASCII digits at the front of `s`. */
  function DigitRunEnd(s: string): (k: nat)
    ensures k <= |s|
    ensures forall i :: 0 <= i < k ==> IsDigit(s[i])
    ensures k == |s| || !IsDigit(s[k])
  {
    if |s| == 0 || !IsDigit(s[0]) then 0 else 1 + DigitRunEnd(s[1..])
  }

  /** `parse_github_url`: the groups on a match, None where Python returns
      `(None, None, None)`. */
  function ParseGithubUrl(url: string): (r: Option<PrRef>)
    ensures r.Some? ==> IsMatch(url, r.value)
  {
    if !(GithubPrefix <= url) then None
    else
      var r := MatchOwner(url[|GithubPrefix|..]);
      if r.None? then None
      else
        Reassociate(GithubPrefix, r.value.0.owner, "/", r.value.0.repo, PullMarker, r.value.0.number, r.value.1);
        assert url == MatchedText(r.value.0) + r.value.1;
        Some(r.value.0)
  }

  /** `([^/]+)/` and the rest of the pattern, after the fixed prefix. On a
      match it also returns the unconsumed tail. */
  function MatchOwner(s: string): (r: Option<(PrRef, string)>)
    ensures r.Some? ==> && IsSegment(r.value.0.owner) && IsSegment(r.value.0.repo)
                        && IsNumeral(r.value.0.number)
                        && s == r.value.0.owner + ("/" + (r.value.0.repo + (PullMarker + (r.value.0.number + r.value.1))))
                        && (r.value.1 == [] || !IsDigit(r.value.1[0]))
  {
    var k := SegmentEnd(s);
    if k == 0 || k == |s| then None
    else
      var r := MatchRepo(s[k + 1..]);
      if r.None? then None
      else
        assert s == s[..k] + ("/" + s[k + 1..]);
        Some((PrRef(s[..k], r.value.0, r.value.1), r.value.2))
  }

  /** `([^/]+)/pull/` and the number, after the owner's slash. */
  function MatchRepo(s: string): (r: Option<(string, string, string)>)
    ensures r.Some? ==> && IsSegment(r.value.0) && IsNumeral(r.value.1)
                        && s == r.value.0 + (PullMarker + (r.value.1 + r.value.2))
                        && (r.value.2 == [] || !IsDigit(r.value.2[0]))
  {
    var k := SegmentEnd(s);
    if k == 0 || !(PullMarker <= s[k..]) then None
    else
      var r := MatchNumber(s[k + |PullMarker|..]);
      if r.None? then None
      else
        assert s[k..] == PullMarker + s[k + |PullMarker|..];
        assert s == s[..k] + s[k..];
        Some((s[..k], r.value.0, r.value.1))
  }

  /** Greedy `(\d+)`: the longest non-empty run of digits, and what follows it. */
  function MatchNumber(s: string): (r: Option<(string, string)>)
    ensures r.Some? ==> && IsNumeral(r.value.0) && s == r.value.0 + r.value.1
                        && (r.value.1 == [] || !IsDigit(r.value.1[0]))
  {
    var k := DigitRunEnd(s);
    if k == 0 then None
    else
      assert s == s[..k] + s[k..];
      Some((s[..k], s[k..]))
  }

  lemma Reassociate(a: string, b: string, c: string, d: string, e: string, f: string, g: string)
    ensures a + (b + (c + (d + (e + (f + g))))) == a + b + c + d + e + f + g
  {
  }

  /** A run that is followed by `/` (or the end) is exactly what SegmentEnd finds. */
  lemma SegmentEndOf(seg: string, rest: string)
    requires forall i :: 0 <= i < |seg| ==> seg[i] != '/'
    requires rest == [] || rest[0] == '/'
    ensures SegmentEnd(seg + rest) == |seg|
  {
    var s := seg + rest;
    var k := SegmentEnd(s);
    assert rest != [] ==> s[|seg|] == rest[0];
  }

  lemma DigitRunEndOf(digits: string, rest: string)
    requires AllDigits(digits)
    requires rest == [] || !IsDigit(rest[0])
    ensures DigitRunEnd(digits + rest) == |digits|
  {
    var s := digits + rest;
    var k := DigitRunEnd(s);
    assert rest != [] ==> s[|digits|] == rest[0];
  }

  /** Completeness: whenever the pattern matches with groups `r`, the parser
      returns exactly `r`; with the soundness clause of ParseGithubUrl this
      makes IsMatch and the parser agree in both directions. */
  lemma ParseComplete(url: string, r: PrRef)
    requires IsMatch(url, r)
    ensures ParseGithubUrl(url) == Some(r)
  {
    var tail := url[|MatchedText(r)|..];
    var x1 := "/" + (r.repo + (PullMarker + (r.number + tail)));
    Reassociate(GithubPrefix, r.owner, "/", r.repo, PullMarker, r.number, tail);
    assert url == GithubPrefix + (r.owner + x1);
    assert url[|GithubPrefix|..] == r.owner + x1;
    MatchOwnerComplete(r.owner, r.repo, r.number, tail);
  }

  lemma MatchOwnerComplete(owner: string, repo: string, number: string, tail: string)
    requires IsSegment(owner) && IsSegment(repo) && IsNumeral(number)
    requires tail == [] || !IsDigit(tail[0])
    ensures MatchOwner(owner + ("/" + (repo + (PullMarker + (number + tail)))))
            == Some((PrRef(owner, repo, number), tail))
  {
    var rest := repo + (PullMarker + (number + tail));
    var x1 := "/" + rest;
    var s := owner + x1;
    SegmentEndOf(owner, x1);
    assert s[..|owner|] == owner;
    assert s[|owner| + 1..] == x1[1..] == rest;
    MatchRepoComplete(repo, number, tail);
    assert MatchRepo(s[|owner| + 1..]) == Some((repo, number, tail));
  }

  lemma MatchRepoComplete(repo: string, number: string, tail: string)
    requires IsSegment(repo) && IsNumeral(number)
    requires tail == [] || !IsDigit(tail[0])
    ensures MatchRepo(repo + (PullMarker + (number + tail))) == Some((repo, number, tail))
  {
    var x2 := PullMarker + (number + tail);
    SegmentEndOf(repo, x2);
    assert (repo + x2)[|repo|..] == x2;
    assert x2[|PullMarker|..] == number + tail;
    DigitRunEndOf(number, tail);
    assert MatchNumber(number + tail) == Some((number, tail));
  }

  /** Any URL of the shape https://github.com/<seg>/<seg>/pull/<digits><rest>
      is accepted, whatever follows: the owner and repo come back as written,
      and the number is the given digits extended by the digits that lead `rest`
      (greedy `\d+`). Contrapositively, a URL the parser rejects has no such shape. */
  lemma {:induction false} AcceptsEveryPullUrl(owner: string, repo: string, digits: string, rest: string)
    requires IsSegment(owner) && IsSegment(repo) && IsNumeral(digits)
    ensures var p := ParseGithubUrl(GithubPrefix + owner + "/" + repo + PullMarker + digits + rest);
            && p.Some? && p.value.owner == owner && p.value.repo == repo
            && digits <= p.value.number
            && p.value.number == digits + rest[..DigitRunEnd(rest)]
  {
    var k := DigitRunEnd(rest);
    var number := digits + rest[..k];
    assert AllDigits(number) by {
      forall i | 0 <= i < |number| ensures IsDigit(number[i]) {
        if i >= |digits| { assert number[i] == rest[..k][i - |digits|]; }
      }
    }
    var r := PrRef(owner, repo, number);
    var url := GithubPrefix + owner + "/" + repo + PullMarker + digits + rest;
    assert url == MatchedText(r) + rest[k..];
    assert IsMatch(url, r);
    ParseComplete(url, r);
  }

  /** The worked example: the URL `https://github.com/octocat/Hello-World/pull/42` yields its three groups. */
  lemma ExampleOctocat()
    ensures ParseGithubUrl("https://github.com/octocat/Hello-World/pull/42")
            == Some(PrRef("octocat", "Hello-World", "42"))
    ensures DigitsValue("42") == 42
  {
    var r := PrRef("octocat", "Hello-World", "42");
    assert MatchedText(r) == "https://github.com/octocat/Hello-World/pull/42";
    ParseComplete("https://github.com/octocat/Hello-World/pull/42", r);
  }

  /** Trailing text is ignored: the files tab of the same PR parses the same. */
  lemma ExampleTrailingText()
    ensures ParseGithubUrl("https://github.com/octocat/Hello-World/pull/42/files")
            == Some(PrRef("octocat", "Hello-World", "42"))
  {
    var r := PrRef("octocat", "Hello-World", "42");
    var url := "https://github.com/octocat/Hello-World/pull/42/files";
    assert url == "https://github.com/octocat/Hello-World/pull/42" + "/files";
    assert MatchedText(r) == "https://github.com/octocat/Hello-World/pull/42";
    ParseComplete(url, r);
  }

  /** Another scheme is rejected: the prefix is matched literally. */
  lemma ExampleWrongScheme()
    ensures ParseGithubUrl("http://github.com/octocat/Hello-World/pull/42") == None
  {
    var u := "http://github.com/octocat/Hello-World/pull/42";
    assert u[4] != GithubPrefix[4];
  }

  lemma ParseAfterPrefix(s: string)
    ensures ParseGithubUrl(GithubPrefix + s).None? <==> MatchOwner(s).None?
  {
    assert (GithubPrefix + s)[|GithubPrefix|..] == s;
  }

  lemma MatchOwnerAfter(owner: string, s: string)
    requires IsSegment(owner)
    ensures MatchOwner(owner + ("/" + s)).None? <==> MatchRepo(s).None?
  {
    SegmentEndOf(owner, "/" + s);
    assert (owner + ("/" + s))[|owner| + 1..] == s;
  }

  lemma MatchRepoAfter(repo: string, s: string)
    requires IsSegment(repo) && (s == [] || s[0] == '/')
    ensures MatchRepo(repo + s).None? <==> !(PullMarker <= s) || MatchNumber(s[|PullMarker|..]).None?
  {
    SegmentEndOf(repo, s);
    assert (repo + s)[|repo|..] == s;
  }

  /** The URL is rejected when `/pull/` does not follow the repository segment. */
  lemma RejectsWithoutPullMarker(owner: string, repo: string, rest: string)
    requires IsSegment(owner) && IsSegment(repo)
    requires rest == [] || rest[0] == '/'
    requires !(PullMarker <= rest)
    ensures ParseGithubUrl(GithubPrefix + owner + "/" + repo + rest) == None
  {
    assert GithubPrefix + owner + "/" + repo + rest == GithubPrefix + (owner + ("/" + (repo + rest)));
    ParseAfterPrefix(owner + ("/" + (repo + rest)));
    MatchOwnerAfter(owner, repo + rest);
    MatchRepoAfter(repo, rest);
  }

  /** The URL is rejected when no digit follows `/pull/`. */
  lemma RejectsWithoutNumber(owner: string, repo: string, rest: string)
    requires IsSegment(owner) && IsSegment(repo)
    requires rest == [] || !IsDigit(rest[0])
    ensures ParseGithubUrl(GithubPrefix + owner + "/" + repo + PullMarker + rest) == None
  {
    var x2 := PullMarker + rest;
    assert GithubPrefix + owner + "/" + repo + PullMarker + rest == GithubPrefix + (owner + ("/" + (repo + x2)));
    ParseAfterPrefix(owner + ("/" + (repo + x2)));
    MatchOwnerAfter(owner, repo + x2);
    MatchRepoAfter(repo, x2);
    assert x2[|PullMarker|..] == rest;
    assert DigitRunEnd(rest) == 0;
  }

  /** An issue URL is rejected. */
  lemma ExampleIssueUrl()
    ensures ParseGithubUrl("https://github.com/octocat/Hello-World/issues/42") == None
  {
    var u := "https://github.com/octocat/Hello-World/issues/42";
    assert u == GithubPrefix + "octocat" + "/" + "Hello-World" + "/issues/42";
    assert "/issues/42"[1] != PullMarker[1];
    RejectsWithoutPullMarker("octocat", "Hello-World", "/issues/42");
  }

  /** A pull URL without a number is rejected. */
  lemma ExampleMissingNumber()
    ensures ParseGithubUrl("https://github.com/octocat/Hello-World/pull/") == None
  {
    var u := "https://github.com/octocat/Hello-World/pull/";
    assert u == GithubPrefix + "octocat" + "/" + "Hello-World" + PullMarker + "";
    RejectsWithoutNumber("octocat", "Hello-World", "");
  }
}
