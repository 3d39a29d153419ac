/**
 * Splitting a git remote locator into the owner and the repository name
 * (`extract_repo_info`). The locator is cut at every `/`; the last piece,
 * less one trailing `.git`, is the repository, and the piece before it is the
 * owner. Nothing else is checked, so in the SSH form `git@host:owner/name.git`
 * the owner comes out as `git@host:owner`.
 */
module RepoInfo {
  import opened Wrappers
  import opened Text

  /** The owner and the repository named by `url`, or None when it has fewer than two pieces or no `.git` ending. */
  function ExtractRepoInfo(url: string): (r: Option<(string, string)>)
    ensures r.Some? ==> '/' !in r.value.0 && '/' !in r.value.1  {
    var parts := Split(url, '/');
    if |parts| < 2 then None
    else
      match StripSuffix(parts[|parts| - 1], ".git")
      case None => None
      case Some(repo) => Some((parts[|parts| - 2], repo))
  }

  /**
   * When an owner and a repository come out, neither holds a `/`, and the
   * locator is `<prefix><owner>/<repo>.git` where the prefix is empty or ends in `/`.
   */
  lemma ExtractRepoInfoSound(url: string, owner: string, repo: string)
    requires ExtractRepoInfo(url) == Some((owner, repo))
    ensures '/' !in owner && '/' !in repo
    ensures var p := |url| - |owner| - |repo| - 5;
      && 0 <= p
      && url == url[..p] + owner + "/" + repo + ".git"
      && (p == 0 || url[p - 1] == '/')
  {
    var parts := Split(url, '/');
    var n := |parts|;
    JoinSplit(url, '/');
    var last := parts[n - 1];
    assert last == repo + ".git";
    assert parts == parts[..n - 1] + [last];
    JoinSnoc(parts[..n - 1], last, '/');
    var init := parts[..n - 1];
    assert init[|init| - 1] == owner;
    if |init| == 1 {
      assert url == owner + "/" + repo + ".git";
    } else {
      assert init == init[..|init| - 1] + [owner];
      JoinSnoc(init[..|init| - 1], owner, '/');
      var pre := Join(init[..|init| - 1], '/') + ['/'];
      assert url == pre + owner + "/" + repo + ".git";
      assert url[..|pre|] == pre;
    }
  }

  /**
   * Conversely, every locator of that shape yields exactly that owner and
   * repository: together with ExtractRepoInfoSound this says that a result
   * comes out if and only if the locator has the shape.
   */
  lemma ExtractRepoInfoComplete(prefix: string, owner: string, repo: string)
    requires '/' !in owner && '/' !in repo
    requires prefix == [] || prefix[|prefix| - 1] == '/'
    ensures ExtractRepoInfo(prefix + owner + "/" + repo + ".git") == Some((owner, repo))
  {
    var name := repo + ".git";
    var url := prefix + owner + "/" + repo + ".git";
    assert url == prefix + (owner + ['/'] + name);
    var parts := Split(url, '/');
    SplitOwnerAndName(prefix, owner, name);
    assert parts[|parts| - 2] == owner && parts[|parts| - 1] == name;
    assert StripSuffix(name, ".git") == Some(repo) by {
      assert name[..|name| - 4] == repo;
    }
  }

  /** The pieces of `<prefix><owner>/<name>` end with the owner and the name. */
  lemma SplitOwnerAndName(prefix: string, owner: string, name: string)
    requires '/' !in owner && '/' !in name
    requires prefix == [] || prefix[|prefix| - 1] == '/'
    ensures var parts := Split(prefix + (owner + ['/'] + name), '/');
      |parts| >= 2 && parts[|parts| - 2] == owner && parts[|parts| - 1] == name
  {
    var tail := owner + ['/'] + name;
    SplitWithoutSeparator(owner, '/');
    SplitWithoutSeparator(name, '/');
    SplitAround(owner, name, '/');
    assert Split(tail, '/') == [owner, name];
    if prefix == [] {
      assert prefix + tail == tail;
    } else {
      var head := prefix[..|prefix| - 1];
      assert prefix + tail == head + ['/'] + tail;
      SplitAround(head, tail, '/');
    }
  }

  /** A locator ending in `/` has an empty last piece, which cannot end in `.git`. */
  lemma TrailingSlashIsRejected(url: string)
    requires |url| > 0 && url[|url| - 1] == '/'
    ensures ExtractRepoInfo(url) == None
  {
    var head := url[..|url| - 1];
    assert url == head + ['/'] + [];
    SplitAround(head, [], '/');
  }

  /** A locator without `/` is a single piece: no owner can be found. */
  lemma NoSlashIsRejected(url: string)
    requires '/' !in url
    ensures ExtractRepoInfo(url) == None
  {
    SplitWithoutSeparator(url, '/');
  }

  lemma NotAUrlIsRejected()
    ensures ExtractRepoInfo("not-a-url") == None
  {
    NoSlashIsRejected("not-a-url");
  }

  lemma TrailingSlashExample()
    ensures ExtractRepoInfo("https://github.com/acme/widget/") == None
  {
    TrailingSlashIsRejected("https://github.com/acme/widget/");
  }

  /** Without the `.git` suffix the strip fails and nothing comes out. */
  lemma MissingSuffixExample()
    ensures ExtractRepoInfo("https://github.com/acme/widget") == None
  {
    var url := "https://github.com/acme/widget";
    assert url == "https://github.com/acme" + ['/'] + "widget";
    SplitWithoutSeparator("widget", '/');
    SplitAround("https://github.com/acme", "widget", '/');
  }

  lemma HttpsFormExample()
    ensures ExtractRepoInfo("https://github.com/acme/widget.git") == Some(("acme", "widget"))
  {
    ExtractRepoInfoComplete("https://github.com/", "acme", "widget");
    assert "https://github.com/" + "acme" + "/" + "widget" + ".git" == "https://github.com/acme/widget.git";
  }

  /** In the SSH form the host part stays glued to the owner. */
  lemma SshFormExample()
    ensures ExtractRepoInfo("git@github.com:acme/widget.git") == Some(("git@github.com:acme", "widget"))
  {
    ExtractRepoInfoComplete([], "git@github.com:acme", "widget");
    assert [] + "git@github.com:acme" + "/" + "widget" + ".git" == "git@github.com:acme/widget.git";
  }
}
