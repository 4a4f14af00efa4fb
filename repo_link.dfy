/** The first step of the gallery's repository validation: find the leftmost
    `github.com/<owner>/<repo>` in the text the user typed, strip one `.git`
    from the repository and build the backend lookup path from the two parts.
    The pattern is the regular expression `github\.com\/([^\/]+)\/([^\/]+)`,
    whose two groups are greedy runs of characters other than `/`. */
module RepoLink {
  import opened Results
  import opened Text

  datatype RepoMatch = RepoMatch(owner: string, repo: string)

  const Host: string := "github.com/"
  const InvalidUrl: string := "Invalid GitHub repository URL"
  const LookupPrefix: string := "/github/repos/"

  /** The end of the run of non-`/` characters that starts at `k`. */
  function RunEnd(s: string, k: nat): (e: nat)
    requires k <= |s|
    ensures k <= e <= |s|
    ensures forall m :: k <= m < e ==> s[m] != '/'
    ensures e == |s| || s[e] == '/'
    decreases |s| - k
  {
    if k == |s| || s[k] == '/' then k else RunEnd(s, k + 1)
  }

  /** Any end of a slash-free run that stops at `/` or at the end is the run end. */
  lemma {:induction false} RunEndUnique(s: string, k: nat, e: nat)
    requires k <= e <= |s|
    requires forall m :: k <= m < e ==> s[m] != '/'
    requires e == |s| || s[e] == '/'
    ensures RunEnd(s, k) == e
    decreases e - k
  {
    if k < e {
      RunEndUnique(s, k + 1, e);
    }
  }

  /** The pattern matched at position `i`: what the regular expression would capture
      if its match started there. */
  function MatchAt(s: string, i: nat): Option<RepoMatch>
    requires i <= |s|
  {
    if !OccursAt(s, Host, i) then None
    else
      var j := RunEnd(s, i + |Host|);
      if j == i + |Host| || j == |s| then None
      else
        var k := RunEnd(s, j + 1);
        if k == j + 1 then None else Some(RepoMatch(s[i + |Host|..j], s[j + 1..k]))
  }

  /** Independent reading of a match at `i`: the text there is `github.com/`, a
      non-empty slash-free owner, `/`, a non-empty slash-free repository, followed
      by `/` or the end of the string. */
  predicate IsMatchAt(s: string, i: nat, m: RepoMatch) {
    var whole := Host + m.owner + "/" + m.repo;
    OccursAt(s, whole, i)
    && m.owner != "" && m.repo != "" && '/' !in m.owner && '/' !in m.repo
    && (i + |whole| == |s| || s[i + |whole|] == '/')
  }

  lemma MatchAtSound(s: string, i: nat)
    requires i <= |s| && MatchAt(s, i).Some?
    ensures IsMatchAt(s, i, MatchAt(s, i).value)
  {
    var m := MatchAt(s, i).value;
    var j := RunEnd(s, i + |Host|);
    var k := RunEnd(s, j + 1);
    SlashFreeSlice(s, i + |Host|, j);
    SlashFreeSlice(s, j + 1, k);
    assert s[j..j + 1] == "/";
    assert s[i..k] == s[i..i + |Host|] + s[i + |Host|..j] + s[j..j + 1] + s[j + 1..k];
  }

  /** A stretch without `/` gives a slice without `/`. */
  lemma SlashFreeSlice(s: string, a: nat, b: nat)
    requires a <= b <= |s|
    requires forall t :: a <= t < b ==> s[t] != '/'
    ensures '/' !in s[a..b]
  {
    forall t | 0 <= t < b - a ensures s[a..b][t] != '/' {
      assert s[a..b][t] == s[a + t];
    }
  }

  /** An occurrence of `x + y` is an occurrence of `x` followed by one of `y`. */
  lemma OccursAtSplit(s: string, x: string, y: string, i: nat)
    requires OccursAt(s, x + y, i)
    ensures OccursAt(s, x, i) && OccursAt(s, y, i + |x|)
  {
    assert s[i..i + |x|] == (x + y)[..|x|];
    assert s[i + |x|..i + |x| + |y|] == (x + y)[|x|..];
  }

  /** Every position of an occurrence of a slash-free string holds no `/`. */
  lemma OccursSlashFree(s: string, q: string, a: nat)
    requires OccursAt(s, q, a) && '/' !in q
    ensures forall t :: a <= t < a + |q| ==> s[t] != '/'
  {
    forall t | a <= t < a + |q| ensures s[t] != '/' {
      assert s[t] == s[a..a + |q|][t - a] == q[t - a];
    }
  }

  lemma MatchAtComplete(s: string, i: nat, m: RepoMatch)
    requires i <= |s| && IsMatchAt(s, i, m)
    ensures MatchAt(s, i) == Some(m)
  {
    var j := i + |Host| + |m.owner|;
    var k := j + 1 + |m.repo|;
    MatchParts(s, i, m);
    assert j < |s| && j != i + |Host| && k != j + 1;
  }

  /** The pieces of a match, located in the text. */
  lemma MatchParts(s: string, i: nat, m: RepoMatch)
    requires i <= |s| && IsMatchAt(s, i, m)
    ensures var j := i + |Host| + |m.owner|;
      && OccursAt(s, Host, i) && j < |s| && s[j] == '/'
      && RunEnd(s, i + |Host|) == j && RunEnd(s, j + 1) == j + 1 + |m.repo|
      && s[i + |Host|..j] == m.owner && s[j + 1..j + 1 + |m.repo|] == m.repo
  {
    var j := i + |Host| + |m.owner|;
    var k := j + 1 + |m.repo|;
    PartsOccur(s, i, m);
    OccursSlashFree(s, m.owner, i + |Host|);
    OccursSlashFree(s, m.repo, j + 1);
    RunEndUnique(s, i + |Host|, j);
    RunEndUnique(s, j + 1, k);
  }

  /** Each of the four pieces of a match occurs where the match puts it. */
  lemma PartsOccur(s: string, i: nat, m: RepoMatch)
    requires OccursAt(s, Host + m.owner + "/" + m.repo, i)
    ensures var j := i + |Host| + |m.owner|;
      && OccursAt(s, Host, i) && OccursAt(s, m.owner, i + |Host|)
      && j < |s| && s[j] == '/' && OccursAt(s, m.repo, j + 1)
  {
    var j := i + |Host| + |m.owner|;
    OccursAtSplit(s, Host + m.owner + "/", m.repo, i);
    OccursAtSplit(s, Host + m.owner, "/", i);
    OccursAtSplit(s, Host, m.owner, i);
    assert s[j] == s[j..j + 1][0];
  }

  /** The leftmost match at or after `i`, with its position. */
  function FirstMatch(s: string, i: nat): (r: Option<(nat, RepoMatch)>)
    requires i <= |s|
    ensures r.Some? ==> i <= r.value.0 <= |s| && MatchAt(s, r.value.0) == Some(r.value.1)
    ensures r.Some? ==> forall j :: i <= j < r.value.0 ==> MatchAt(s, j).None?
    ensures r.None? ==> forall j :: i <= j <= |s| ==> MatchAt(s, j).None?
    decreases |s| - i
  {
    if MatchAt(s, i).Some? then Some((i, MatchAt(s, i).value))
    else if i == |s| then None
    else FirstMatch(s, i + 1)
  }

  /** `repo.replace(/\.git$/, '')`: one trailing `.git` removed, if there is one. */
  function CleanRepo(repo: string): (c: string)
    ensures repo == c + ".git" || (c == repo && !EndsWith(repo, ".git"))
  {
    if EndsWith(repo, ".git") then repo[..|repo| - 4] else repo
  }

  /** The owner and the cleaned repository extracted from `repoUrl`, or the error
      thrown before any request is made. */
  function ExtractRepo(repoUrl: string): (r: Result<RepoMatch>)
    ensures r.Err? <==> forall i :: 0 <= i <= |repoUrl| ==> MatchAt(repoUrl, i).None?
    ensures r.Err? ==> r.message == InvalidUrl
    ensures r.Ok? ==> exists i, m ::
      (0 <= i <= |repoUrl| && MatchAt(repoUrl, i) == Some(m)
       && (forall j :: 0 <= j < i ==> MatchAt(repoUrl, j).None?)
       && r.value == RepoMatch(m.owner, CleanRepo(m.repo)))
  {
    match FirstMatch(repoUrl, 0)
    case None => Err(InvalidUrl)
    case Some((_, m)) => Ok(RepoMatch(m.owner, CleanRepo(m.repo)))
  }

  /** The backend path the repository lookup is sent to. */
  function LookupPath(repoUrl: string): (r: Result<string>)
    ensures r.Err? <==> ExtractRepo(repoUrl).Err?
    ensures r.Ok? ==> r.value == LookupPrefix + ExtractRepo(repoUrl).value.owner + "/" + ExtractRepo(repoUrl).value.repo
  {
    var m :- ExtractRepo(repoUrl);
    Ok(LookupPrefix + m.owner + "/" + m.repo)
  }

  /** No scheme is needed, and anything before `github.com/` that holds no `g` is
      skipped: the owner and repository are read off the first occurrence. */
  lemma ExtractAfterPrefix(p: string, o: string, r: string, rest: string)
    requires 'g' !in p
    requires o != "" && r != "" && '/' !in o && '/' !in r
    requires rest == "" || rest[0] == '/'
    ensures ExtractRepo(p + Host + o + "/" + r + rest) == Ok(RepoMatch(o, CleanRepo(r)))
  {
    var s := p + Host + o + "/" + r + rest;
    MatchAfterPrefix(s, p, o, r, rest);
    NoMatchInPrefix(s, p);
    assert FirstMatch(s, 0) == Some((|p|, RepoMatch(o, r)));
  }

  lemma MatchAfterPrefix(s: string, p: string, o: string, r: string, rest: string)
    requires s == p + Host + o + "/" + r + rest
    requires o != "" && r != "" && '/' !in o && '/' !in r
    requires rest == "" || rest[0] == '/'
    ensures MatchAt(s, |p|) == Some(RepoMatch(o, r))
  {
    var whole := Host + o + "/" + r;
    assert s == p + whole + rest;
    assert s[|p|..|p| + |whole|] == whole;
    if rest != "" {
      assert s[|p| + |whole|] == rest[0];
    }
    assert IsMatchAt(s, |p|, RepoMatch(o, r));
    MatchAtComplete(s, |p|, RepoMatch(o, r));
  }

  /** No match can start inside a prefix that holds no `g`. */
  lemma NoMatchInPrefix(s: string, p: string)
    requires 'g' !in p && StartsWith(s, p)
    ensures forall j :: 0 <= j < |p| ==> MatchAt(s, j).None?
  {
    forall j | 0 <= j < |p| ensures MatchAt(s, j).None? {
      assert s[j] == p[j] && p[j] in p;
    }
  }

  /** Stripping `.git` can leave an empty repository: the lookup then ends in `/`. */
  lemma BareGitSuffix(o: string)
    requires o != "" && '/' !in o
    ensures LookupPath("https://" + Host + o + "/.git") == Ok(LookupPrefix + o + "/")
  {
    var url := "https://" + Host + o + "/.git";
    var scheme := "https://";
    assert 'g' !in scheme by {
      forall t | 0 <= t < |scheme| ensures scheme[t] != 'g' { }
    }
    assert '/' !in ".git";
    assert url == scheme + Host + o + "/" + ".git" + "";
    ExtractAfterPrefix(scheme, o, ".git", "");
    assert CleanRepo(".git") == "";
    assert ExtractRepo(url) == Ok(RepoMatch(o, ""));
    assert LookupPrefix + o + "/" + "" == LookupPrefix + o + "/";
  }
}
