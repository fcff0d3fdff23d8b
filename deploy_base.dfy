/**
 * The `base` of `vite.config.ts`: the URL prefix the site is served under
 * on GitHub Pages, computed from the `owner/repo` slug in
 * `GITHUB_REPOSITORY` (absent when the variable is unset).
 */
module DeployBase {
  import opened Wrappers
  import opened Text

  /** `GITHUB_REPOSITORY?.split('/')?.[1] ?? ''` */
  function RepoOf(slug: Option<string>): (repo: string)
    ensures '/' !in repo
  {
    match slug
    case None => ""
    case Some(s) =>
      var parts := SplitOn(s, '/');
      if |parts| >= 2 then parts[1] else ""
  }

  /** A user or organisation site: the repository is named `<owner>.github.io`. */
  predicate IsUserOrOrgSite(repo: string) {
    EndsWith(Lower(repo), ".github.io")
  }

  /** The `base` option. */
  function Base(slug: Option<string>): (b: string)
    ensures |b| >= 1 && b[0] == '/' && b[|b| - 1] == '/'
    ensures b == "/" <==> RepoOf(slug) == "" || IsUserOrOrgSite(RepoOf(slug))
    ensures b != "/" ==> b == "/" + RepoOf(slug) + "/"
  {
    var repo := RepoOf(slug);
    if IsUserOrOrgSite(repo) || repo == "" then "/" else "/" + repo + "/"
  }

  /**
   * The repository is the second `/`-separated segment of the slug only:
   * for `owner/repo` followed by any further segments it is `repo`.
   */
  lemma RepoOfSlug(owner: string, repo: string, more: seq<string>)
    requires '/' !in owner && '/' !in repo
    requires forall i :: 0 <= i < |more| ==> '/' !in more[i]
    ensures RepoOf(Some(JoinOn([owner, repo] + more, '/'))) == repo
  {
    var parts := [owner, repo] + more;
    forall i | 0 <= i < |parts|
      ensures '/' !in parts[i]
    {
      if i >= 2 {
        assert parts[i] == more[i - 2];
      }
    }
    SplitJoin(parts, '/');
  }

  /** A slug without `/` names no repository, so the base is the root. */
  lemma SlugWithoutSlash(s: string)
    requires '/' !in s
    ensures RepoOf(Some(s)) == "" && Base(Some(s)) == "/"
  {
    SplitJoin([s], '/');
  }

  /** The base holds exactly its two enclosing slashes, or is the root alone. */
  lemma BaseSlashes(slug: Option<string>)
    ensures var b := Base(slug); forall i :: 0 < i < |b| - 1 ==> b[i] != '/'
  {
    var b := Base(slug);
    var repo := RepoOf(slug);
    if b != "/" {
      forall i | 0 < i < |b| - 1
        ensures b[i] != '/'
      {
        assert b[i] == repo[i - 1];
      }
    }
  }
}
