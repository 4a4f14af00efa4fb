/** The backend's GitHub repository URL utilities: parsing the two accepted URL
    forms into an owner and a repository name, the validity test built on the
    parser, and the hosted-prototype URL derived from a repository name. */
module GitHubUrl {
  import opened Results
  import opened Text

  datatype RepoRef = RepoRef(owner: string, repoName: string)

  const SshPrefix: string := "git@github.com:"
  const HttpsPrefix: string := "https://github.com/"
  const FormatError: string := "Invalid GitHub repository URL format"

  /** The input after `trim` and after removing one trailing `.git`. */
  function CleanUrl(url: string): (c: string)
    ensures |c| <= |url|
    ensures EndsWith(Trim(url), ".git") ==> c + ".git" == Trim(url)
    ensures !EndsWith(Trim(url), ".git") ==> c == Trim(url)
    ensures c == "" || !IsSpace(c[0])
  {
    var t := Trim(url);
    TrimShape(url);
    TrimEnds(url);
    if EndsWith(t, ".git") then t[..|t| - 4] else t
  }

  /** `parseGitHubUrl`: the SSH form must leave exactly two `/`-separated parts
      after its prefix, the HTTPS form at least two; owner and repository are the
      first two parts, and every other input is rejected with the same message. */
  function ParseGitHubUrl(url: string): (r: Result<RepoRef>)
    ensures r.Err? ==> r.message == FormatError
    ensures r.Ok? ==> StartsWith(CleanUrl(url), SshPrefix) || StartsWith(CleanUrl(url), HttpsPrefix)
    ensures r.Ok? ==> '/' !in r.value.owner && '/' !in r.value.repoName
  {
    var c := CleanUrl(url);
    if StartsWith(c, SshPrefix) then
      var parts := Split(c[|SshPrefix|..], '/');
      SplitNoSep(c[|SshPrefix|..], '/');
      if |parts| != 2 then Err(FormatError) else Ok(RepoRef(parts[0], parts[1]))
    else if StartsWith(c, HttpsPrefix) then
      var parts := Split(c[|HttpsPrefix|..], '/');
      SplitNoSep(c[|HttpsPrefix|..], '/');
      if |parts| < 2 then Err(FormatError) else Ok(RepoRef(parts[0], parts[1]))
    else
      Err(FormatError)
  }

  /** Which cleaned inputs the parser accepts, counted in separators. */
  predicate AcceptedForm(c: string) {
    if StartsWith(c, SshPrefix) then Count(c[|SshPrefix|..], '/') == 1
    else StartsWith(c, HttpsPrefix) && Count(c[|HttpsPrefix|..], '/') >= 1
  }

  /** The parser succeeds exactly on the accepted forms. */
  lemma ParseOkIff(url: string)
    ensures ParseGitHubUrl(url).Ok? <==> AcceptedForm(CleanUrl(url))
  {
    var c := CleanUrl(url);
    if StartsWith(c, SshPrefix) {
      SplitCount(c[|SshPrefix|..], '/');
    } else if StartsWith(c, HttpsPrefix) {
      SplitCount(c[|HttpsPrefix|..], '/');
    }
  }

  /** `isValidGitHubUrl`: true exactly when parsing does not throw. */
  function IsValidGitHubUrl(url: string): (b: bool)
    ensures b <==> AcceptedForm(CleanUrl(url))
  {
    ParseOkIff(url);
    ParseGitHubUrl(url).Ok?
  }

  /** What a successful parse says about the cleaned input: an SSH URL is exactly
      prefix, owner, `/`, repository; an HTTPS URL starts with prefix, owner, `/`,
      repository and continues, if at all, with a further `/` segment. */
  lemma ParseSound(url: string)
    requires ParseGitHubUrl(url).Ok?
    ensures var c, o, r := CleanUrl(url), ParseGitHubUrl(url).value.owner, ParseGitHubUrl(url).value.repoName;
      if StartsWith(c, SshPrefix) then c == SshPrefix + o + "/" + r
      else
        var head := HttpsPrefix + o + "/" + r;
        StartsWith(c, head) && (|c| == |head| || c[|head|] == '/')
  {
    var c := CleanUrl(url);
    if StartsWith(c, SshPrefix) {
      FirstTwoParts(SshPrefix, c);
    } else {
      FirstTwoParts(HttpsPrefix, c);
    }
  }

  /** A prefixed string whose remainder splits into at least two parts begins with
      the prefix, the first part, `/` and the second part, and continues with `/`
      if it continues at all. */
  lemma FirstTwoParts(p: string, c: string)
    requires StartsWith(c, p) && |Split(c[|p|..], '/')| >= 2
    ensures var parts := Split(c[|p|..], '/');
      var head := p + parts[0] + "/" + parts[1];
      StartsWith(c, head) && (|c| == |head| || c[|head|] == '/') && (|parts| == 2 ==> c == head)
  {
    var tail := c[|p|..];
    var parts := Split(tail, '/');
    var h := parts[0] + "/" + parts[1];
    TwoPartsHead(tail);
    assert c == p + tail;
    assert p + parts[0] + "/" + parts[1] == p + h;
    assert c[..|p + h|] == p + tail[..|h|];
  }

  /** The same, for the remainder alone. */
  lemma TwoPartsHead(tail: string)
    requires |Split(tail, '/')| >= 2
    ensures var parts := Split(tail, '/');
      var h := parts[0] + "/" + parts[1];
      StartsWith(tail, h) && (|tail| == |h| || tail[|h|] == '/') && (|parts| == 2 ==> tail == h)
  {
    var parts := Split(tail, '/');
    var h := parts[0] + "/" + parts[1];
    SplitJoin(tail, '/');
    var more := if |parts| == 2 then "" else "/" + Join(parts[2..], '/');
    assert parts[1..][1..] == parts[2..];
    assert Join(parts[1..], '/') == parts[1] + more;
    assert tail == h + more;
    assert tail[..|h|] == h;
  }

  /** An HTTPS URL ending in `.git` is parsed from the parts of what lies between. */
  lemma HttpsWithGitSuffix(url: string, tail: string)
    requires url == HttpsPrefix + tail + ".git"
    ensures var parts := Split(tail, '/');
      ParseGitHubUrl(url) == if |parts| < 2 then Err(FormatError) else Ok(RepoRef(parts[0], parts[1]))
  {
    assert url[0] == 'h' && url[|url| - 1] == 't';
    TrimNoop(url);
    assert CleanUrl(url) == HttpsPrefix + tail;
    assert !StartsWith(CleanUrl(url), SshPrefix) by {
      assert CleanUrl(url)[0] != SshPrefix[0];
    }
    assert CleanUrl(url)[|HttpsPrefix|..] == tail;
  }

  /** An SSH URL ending in `.git` is parsed from the parts of what lies between. */
  lemma SshWithGitSuffix(url: string, tail: string)
    requires url == SshPrefix + tail + ".git"
    ensures var parts := Split(tail, '/');
      ParseGitHubUrl(url) == if |parts| != 2 then Err(FormatError) else Ok(RepoRef(parts[0], parts[1]))
  {
    assert url[0] == 'g' && url[|url| - 1] == 't';
    TrimNoop(url);
    assert CleanUrl(url) == SshPrefix + tail;
    assert CleanUrl(url)[|SshPrefix|..] == tail;
  }

  /** The SSH spelling `git@github.com:o/r.git` of a repository. */
  function SshUrl(ref: RepoRef): string {
    SshPrefix + ref.owner + "/" + ref.repoName + ".git"
  }

  /** The HTTPS spelling `https://github.com/o/r.git` of a repository. */
  function HttpsUrl(ref: RepoRef): string {
    HttpsPrefix + ref.owner + "/" + ref.repoName + ".git"
  }

  /** Both spellings of a repository with slash-free owner and name parse back to it. */
  lemma SshRoundTrip(ref: RepoRef)
    requires '/' !in ref.owner && '/' !in ref.repoName
    ensures ParseGitHubUrl(SshUrl(ref)) == Ok(ref)
  {
    var tail := ref.owner + "/" + ref.repoName;
    assert tail == Join([ref.owner, ref.repoName], '/');
    JoinSplit([ref.owner, ref.repoName], '/');
    SshWithGitSuffix(SshUrl(ref), tail);
  }

  lemma HttpsRoundTrip(ref: RepoRef)
    requires '/' !in ref.owner && '/' !in ref.repoName
    ensures ParseGitHubUrl(HttpsUrl(ref)) == Ok(ref)
  {
    var tail := ref.owner + "/" + ref.repoName;
    assert tail == Join([ref.owner, ref.repoName], '/');
    JoinSplit([ref.owner, ref.repoName], '/');
    HttpsWithGitSuffix(HttpsUrl(ref), tail);
  }

  /** A path that continues after the repository splits into owner, repository
      and at least one more part. */
  lemma SplitExtraSegments(o: string, r: string, more: string)
    requires '/' !in o && '/' !in r
    ensures Split(o + "/" + r + "/" + more, '/') == [o, r] + Split(more, '/')
  {
    SplitPrefix(o, r + "/" + more, '/');
    SplitPrefix(r, more, '/');
    assert o + "/" + r + "/" + more == o + "/" + (r + "/" + more);
  }

  /** Extra path segments after the repository are ignored by the HTTPS form... */
  lemma HttpsExtraSegments(o: string, r: string, more: string)
    requires '/' !in o && '/' !in r
    ensures ParseGitHubUrl(HttpsPrefix + o + "/" + r + "/" + more + ".git") == Ok(RepoRef(o, r))
  {
    var tail := o + "/" + r + "/" + more;
    SplitExtraSegments(o, r, more);
    var url := HttpsPrefix + o + "/" + r + "/" + more + ".git";
    assert url == HttpsPrefix + tail + ".git";
    HttpsWithGitSuffix(url, tail);
  }

  /** ...and rejected by the SSH form. */
  lemma SshExtraSegments(o: string, r: string, more: string)
    requires '/' !in o && '/' !in r
    ensures ParseGitHubUrl(SshPrefix + o + "/" + r + "/" + more + ".git").Err?
  {
    var tail := o + "/" + r + "/" + more;
    SplitExtraSegments(o, r, more);
    var url := SshPrefix + o + "/" + r + "/" + more + ".git";
    assert url == SshPrefix + tail + ".git";
    SshWithGitSuffix(url, tail);
  }

  /** Both parts are only counted, never checked for content: an empty repository
      part is accepted. */
  lemma EmptyRepoAccepted()
    ensures ParseGitHubUrl("https://github.com/o/") == Ok(RepoRef("o", ""))
  {
    var c := CleanUrl("https://github.com/o/");
    TrimNoop("https://github.com/o/");
    assert c == "https://github.com/o/";
    assert c[|HttpsPrefix|..] == Join(["o", ""], '/');
    JoinSplit(["o", ""], '/');
  }

  /** Plain `http` and hosts without the scheme are rejected. */
  lemma OtherPrefixesRejected()
    ensures ParseGitHubUrl("http://github.com/o/r").Err?
    ensures ParseGitHubUrl("github.com/o/r").Err?
  {
    TrimNoop("http://github.com/o/r");
    TrimNoop("github.com/o/r");
  }

  // ---------------------------------------------------------------------------
  // generatePrototypeUrl

  /** The characters a cleaned repository name may hold: `[a-z0-9-]`. */
  predicate IsSlugChar(ch: char) {
    'a' <= ch <= 'z' || IsDigit(ch) || ch == '-'
  }

  /** Lower-case the name and replace every character outside `[a-z0-9-]` by `-`. */
  function CleanRepoName(name: string): (c: string)
    ensures |c| == |name|
    ensures forall i :: 0 <= i < |c| ==> IsSlugChar(c[i])
    ensures forall i :: 0 <= i < |c| && IsSlugChar(LowerChar(name[i])) ==> c[i] == LowerChar(name[i])
    ensures forall i :: 0 <= i < |c| && !IsSlugChar(LowerChar(name[i])) ==> c[i] == '-'
  {
    seq(|name|, i requires 0 <= i < |name| => if IsSlugChar(LowerChar(name[i])) then LowerChar(name[i]) else '-')
  }

  /** A name already made of `[a-z0-9-]` is left unchanged, so cleaning is idempotent. */
  lemma CleanRepoNameFixed(name: string)
    requires forall i :: 0 <= i < |name| ==> IsSlugChar(name[i])
    ensures CleanRepoName(name) == name
  {
    forall i | 0 <= i < |name| ensures CleanRepoName(name)[i] == name[i] {
      assert LowerChar(name[i]) == name[i];
    }
  }

  lemma CleanRepoNameIdempotent(name: string)
    ensures CleanRepoName(CleanRepoName(name)) == CleanRepoName(name)
  {
    CleanRepoNameFixed(CleanRepoName(name));
  }

  const PrototypePrefix: string := "/prototype/"

  /** `generatePrototypeUrl`, with the clock reading passed in. */
  function GeneratePrototypeUrl(repoName: string, timestamp: nat): (u: string)
    ensures StartsWith(u, PrototypePrefix)
    ensures forall i :: |PrototypePrefix| <= i < |u| ==> IsSlugChar(u[i])
  {
    PrototypePrefix + NatToString(timestamp) + "-" + CleanRepoName(repoName)
  }

  /** The timestamp can be read back: it is the first `-`-separated piece after the
      prefix, and the cleaned name is everything after that piece. */
  lemma PrototypeUrlDecodes(repoName: string, timestamp: nat)
    ensures var rest := GeneratePrototypeUrl(repoName, timestamp)[|PrototypePrefix|..];
      Split(rest, '-')[0] == NatToString(timestamp)
      && rest[|NatToString(timestamp)| + 1..] == CleanRepoName(repoName)
  {
    var ts := NatToString(timestamp);
    var rest := GeneratePrototypeUrl(repoName, timestamp)[|PrototypePrefix|..];
    assert '-' !in ts by {
      forall i | 0 <= i < |ts| ensures ts[i] != '-' {
        assert IsDigit(ts[i]);
      }
    }
    assert rest == ts + "-" + CleanRepoName(repoName);
    SplitPrefix(ts, CleanRepoName(repoName), '-');
  }
}
