/**
 * Target resolution: the configured comma-separated lists of repositories, organisations
 * and users become the owner-to-selector map walked by the collector, and the API URLs a
 * scrape would fetch; the API token is chosen between an inline value and a token file.
 */
module Config {
  import opened Wrappers
  import opened GoStrings
  import Seqs

  /** The selector meaning "every repository of this owner". */
  const Wildcard := "*"

  const NoTargetsError := "No targets specified"

  /** Asks the API for 100 results per page, its maximum. */
  const PerPageOpts := "?&per_page=100"

  // ---------------------------------------------------------------------------------------
  // buildTargetReposMap
  // ---------------------------------------------------------------------------------------

  /** The owners that the target map holds for a given `orgs` setting. */
  function TargetOwners(orgs: string): set<string>
  {
    if orgs == "" then {} else set org | org in Split(orgs, ",")
  }

  /**
   * Builds the owner-to-selector map. Only organisations are entered, each with the wildcard
   * selector; repositories and users add nothing (that handling is switched off in the
   * source). With all three inputs empty the result is the empty map and an error.
   */
  method BuildTargetReposMap(repos: string, orgs: string, users: string)
    returns (repoMap: map<string, seq<string>>, err: Option<string>)
    ensures err == if repos == "" && orgs == "" && users == "" then Some(NoTargetsError) else None
    ensures repoMap.Keys == TargetOwners(orgs)
    ensures forall owner :: owner in repoMap ==> repoMap[owner] == [Wildcard]
  {
    repoMap := map[];
    if |repos| == 0 && |orgs| == 0 && |users| == 0 {
      return repoMap, Some(NoTargetsError);
    }
    if orgs != "" {
      var orgsList := Split(orgs, ",");
      for i := 0 to |orgsList|
        invariant repoMap.Keys == set org | org in orgsList[..i]
        invariant forall owner :: owner in repoMap ==> repoMap[owner] == [Wildcard]
      {
        assert orgsList[..i + 1] == orgsList[..i] + [orgsList[i]];
        repoMap := repoMap[orgsList[i] := [Wildcard]];
      }
      assert orgsList[..|orgsList|] == orgsList;
    }
    return repoMap, None;
  }

  lemma {:induction false} CardOfElements(xs: seq<string>)
    ensures |set x | x in xs| <= |xs|
  {
    if xs != [] {
      CardOfElements(xs[1..]);
      assert (set x | x in xs) == {xs[0]} + set x | x in xs[1..];
    }
  }

  /**
   * The owners are exactly the comma-separated pieces of `orgs`: none contains a comma,
   * joining them back (in split order) gives `orgs`, and duplicates collapse, so there are
   * at most one more owners than commas. An empty piece becomes the owner "".
   */
  lemma TargetOwnersArePieces(orgs: string)
    requires orgs != ""
    ensures forall owner :: owner in TargetOwners(orgs) ==> owner in Split(orgs, ",") && ',' !in owner
    ensures Join(Split(orgs, ","), ",") == orgs
    ensures |TargetOwners(orgs)| <= 1 + multiset(orgs)[',']
  {
    SplitJoin(orgs, ",");
    SplitCount(orgs, ',');
    SplitPiecesSepFree(orgs, ",");
    CardOfElements(Split(orgs, ","));
    forall owner | owner in TargetOwners(orgs)
      ensures ',' !in owner
    {
      if ',' in owner {
        var i :| 0 <= i < |owner| && owner[i] == ',';
        assert SepAt(owner, ",", i);
      }
    }
  }

  // ---------------------------------------------------------------------------------------
  // getScrapeURLs
  // ---------------------------------------------------------------------------------------

  datatype TargetKind = RepoTarget | OrgTarget | UserTarget

  /** The path segment placed before the target's name. */
  function PathBefore(kind: TargetKind): string
  {
    match kind
    case RepoTarget => "/repos/"
    case OrgTarget => "/orgs/"
    case UserTarget => "/users/"
  }

  /** The path segment placed after the target's name, ahead of the query options. */
  function PathAfter(kind: TargetKind): string
  {
    if kind == RepoTarget then "" else "/repos"
  }

  /** The API URL fetched for one configured target. */
  function TargetURL(apiURL: string, kind: TargetKind, name: string): string
  {
    apiURL + PathBefore(kind) + name + PathAfter(kind) + PerPageOpts
  }

  /** The targets named by one setting: its `", "`-separated pieces, none when it is empty. */
  function Targets(list: string): (names: seq<string>)
  {
    if list == "" then [] else Split(list, ", ")
  }

  /** The URLs for one setting, one per target, in the setting's order. */
  function KindURLs(apiURL: string, kind: TargetKind, list: string): (urls: seq<string>)
  {
    var names := Targets(list);
    seq(|names|, i requires 0 <= i < |names| => TargetURL(apiURL, kind, names[i]))
  }

  /** The scrape URLs: those of the repositories, then the organisations, then the users. */
  function ScrapeURLs(apiURL: string, repos: string, orgs: string, users: string): seq<string>
  {
    KindURLs(apiURL, RepoTarget, repos) + KindURLs(apiURL, OrgTarget, orgs) + KindURLs(apiURL, UserTarget, users)
  }

  lemma KindURLsStep(apiURL: string, kind: TargetKind, list: string, i: nat)
    requires i < |Targets(list)|
    ensures KindURLs(apiURL, kind, list)[..i + 1]
         == KindURLs(apiURL, kind, list)[..i] + [TargetURL(apiURL, kind, Targets(list)[i])]
  {
  }

  lemma KindURLsWhole(apiURL: string, kind: TargetKind, list: string)
    ensures KindURLs(apiURL, kind, list)[..|Targets(list)|] == KindURLs(apiURL, kind, list)
    ensures list == "" ==> KindURLs(apiURL, kind, list) == []
  {
  }

  /**
   * Builds the list of API URLs to scrape. With all three inputs empty the list is empty
   * and an error is returned.
   */
  method GetScrapeURLs(apiURL: string, repos: string, orgs: string, users: string)
    returns (urls: seq<string>, err: Option<string>)
    ensures err == if repos == "" && orgs == "" && users == "" then Some(NoTargetsError) else None
    ensures urls == ScrapeURLs(apiURL, repos, orgs, users)
  {
    urls := [];
    if |repos| == 0 && |orgs| == 0 && |users| == 0 {
      return urls, Some(NoTargetsError);
    }
    KindURLsWhole(apiURL, RepoTarget, repos);
    if repos != "" {
      var repoList := Split(repos, ", ");
      for i := 0 to |repoList|
        invariant urls == KindURLs(apiURL, RepoTarget, repos)[..i]
      {
        var repoURL := apiURL + "/repos/" + repoList[i] + PerPageOpts;
        assert repoURL == TargetURL(apiURL, RepoTarget, repoList[i]);
        KindURLsStep(apiURL, RepoTarget, repos, i);
        urls := urls + [repoURL];
      }
    }
    ghost var before := urls;
    KindURLsWhole(apiURL, OrgTarget, orgs);
    if orgs != "" {
      var orgsList := Split(orgs, ", ");
      for i := 0 to |orgsList|
        invariant urls == before + KindURLs(apiURL, OrgTarget, orgs)[..i]
      {
        var repoURL := apiURL + "/orgs/" + orgsList[i] + "/repos" + PerPageOpts;
        KindURLsStep(apiURL, OrgTarget, orgs, i);
        urls := urls + [repoURL];
      }
    }
    before := urls;
    KindURLsWhole(apiURL, UserTarget, users);
    if users != "" {
      var us := Split(users, ", ");
      for i := 0 to |us|
        invariant urls == before + KindURLs(apiURL, UserTarget, users)[..i]
      {
        var y := apiURL + "/users/" + us[i] + "/repos" + PerPageOpts;
        KindURLsStep(apiURL, UserTarget, users, i);
        urls := urls + [y];
      }
    }
    return urls, None;
  }

  /** Reads the target's name back out of one of its URLs. */
  function NameOf(apiURL: string, kind: TargetKind, url: string): string
    requires |apiURL| + |PathBefore(kind)| + |PathAfter(kind)| + |PerPageOpts| <= |url|
  {
    url[|apiURL| + |PathBefore(kind)|..|url| - |PathAfter(kind)| - |PerPageOpts|]
  }

  /**
   * Every scrape URL starts with the API URL and ends with the per-page option; there is one
   * per target, so the list is empty exactly when no target is configured.
   */
  lemma ScrapeURLsShape(apiURL: string, repos: string, orgs: string, users: string)
    ensures var urls := ScrapeURLs(apiURL, repos, orgs, users);
      && |urls| == |Targets(repos)| + |Targets(orgs)| + |Targets(users)|
      && (urls == [] <==> repos == "" && orgs == "" && users == "")
      && forall u :: u in urls ==>
        |apiURL| + |PerPageOpts| <= |u| && u[..|apiURL|] == apiURL && u[|u| - |PerPageOpts|..] == PerPageOpts
  {
    var urls := ScrapeURLs(apiURL, repos, orgs, users);
    forall u | u in urls
      ensures |apiURL| + |PerPageOpts| <= |u| && u[..|apiURL|] == apiURL && u[|u| - |PerPageOpts|..] == PerPageOpts
    {
      var i :| 0 <= i < |urls| && urls[i] == u;
    }
  }

  /**
   * The names read back out of one setting's URLs, joined with `", "`, give back the
   * setting: the URLs lose and reorder nothing.
   */
  lemma KindURLsRoundTrip(apiURL: string, kind: TargetKind, list: string)
    ensures var urls := KindURLs(apiURL, kind, list);
      && (forall u :: u in urls ==> |apiURL| + |PathBefore(kind)| + |PathAfter(kind)| + |PerPageOpts| <= |u|)
      && Join(seq(|urls|, i requires 0 <= i < |urls| => NameOf(apiURL, kind, urls[i])), ", ") == list
  {
    var urls := KindURLs(apiURL, kind, list);
    var names := seq(|urls|, i requires 0 <= i < |urls| => NameOf(apiURL, kind, urls[i]));
    forall i | 0 <= i < |urls|
      ensures names[i] == Targets(list)[i]
    {
      var n := Targets(list)[i];
      var pre := apiURL + PathBefore(kind);
      var post := PathAfter(kind) + PerPageOpts;
      assert urls[i] == pre + n + post;
      assert (pre + n + post)[|pre|..|pre| + |n|] == n;
    }
    assert names == Targets(list);
    if list != "" {
      SplitJoin(list, ", ");
    }
  }

  // ---------------------------------------------------------------------------------------
  // getAuth
  // ---------------------------------------------------------------------------------------

  /** What reading the token file gives: its contents, or the read error. */
  datatype FileRead = Contents(text: string) | ReadError(message: string)

  /** The token to send, and the error met while obtaining it. */
  datatype Auth = Auth(token: string, err: Option<string>)

  /**
   * Chooses the API token. A non-empty inline token wins and the file is not consulted;
   * with neither set the token is empty; otherwise the token file's contents, trimmed of
   * surrounding white space, or an empty token and the read error. `tokenFileRead` is what
   * reading `tokenFile` yields.
   */
  function GetAuth(token: string, tokenFile: string, tokenFileRead: FileRead): (a: Auth)
    ensures token != "" ==> a == Auth(token, None)
    ensures token == "" && tokenFile == "" ==> a == Auth("", None)
    ensures token == "" && tokenFile != "" && tokenFileRead.ReadError? ==> a == Auth("", Some(tokenFileRead.message))
    ensures token == "" && tokenFile != "" && tokenFileRead.Contents? ==>
      && a.err == None
      && (a.token == [] || (!IsSpace(a.token[0]) && !IsSpace(a.token[|a.token| - 1])))
      && exists i: nat :: TrimmedAt(tokenFileRead.text, a.token, i)
  {
    if token != "" then Auth(token, None)
    else if tokenFile != "" then
      match tokenFileRead
      case ReadError(e) => Auth("", Some(e))
      case Contents(b) => Auth(TrimSpace(b), None)
    else Auth("", None)
  }

  /** An inline token makes the token file irrelevant, whatever it names or holds. */
  lemma GetAuthInlineWins(token: string, file1: string, read1: FileRead, file2: string, read2: FileRead)
    requires token != ""
    ensures GetAuth(token, file1, read1) == GetAuth(token, file2, read2)
  {
  }
}
