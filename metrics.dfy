/**
 * The metric side of the exporter: the fixed table of metric descriptors, and the samples a
 * scrape emits for the collected repositories and quota snapshot.
 */
module Metrics {
  import opened Wrappers
  import opened Records
  import opened GoStrings

  /** A metric descriptor: fully-qualified name, help text and ordered label names. */
  datatype Desc = Desc(fqName: string, help: string, variableLabels: seq<string>)

  /** `part` as a one-piece list, or no piece when it is empty. */
  function IfPresent(part: string): seq<string>
  {
    if part == "" then [] else [part]
  }

  /** Prometheus' `BuildFQName`: the non-empty parts joined with "_", or "" without a name. */
  function BuildFQName(namespace: string, subsystem: string, name: string): string
  {
    if name == "" then ""
    else if namespace != "" && subsystem != "" then namespace + "_" + subsystem + "_" + name
    else if namespace != "" then namespace + "_" + name
    else if subsystem != "" then subsystem + "_" + name
    else name
  }

  /**
   * A fully-qualified name is the namespace, the subsystem and the name, leaving out the empty
   * ones, joined with "_"; without a name there is no fully-qualified name.
   */
  lemma BuildFQNameJoins(namespace: string, subsystem: string, name: string)
    ensures name == "" ==> BuildFQName(namespace, subsystem, name) == ""
    ensures name != "" ==> BuildFQName(namespace, subsystem, name) == Join(IfPresent(namespace) + IfPresent(subsystem) + [name], "_")
  {
    if name != "" && namespace != "" && subsystem != "" {
      assert IfPresent(namespace) + IfPresent(subsystem) + [name] == [namespace, subsystem, name];
      assert [namespace, subsystem, name][1..] == [subsystem, name];
      assert [subsystem, name][1..] == [name];
      assert Join([subsystem, name], "_") == subsystem + "_" + name;
    } else if name != "" && namespace != "" {
      assert [namespace, name][1..] == [name];
    } else if name != "" && subsystem != "" {
      assert [subsystem, name][1..] == [name];
    }
  }

  /** The labels of every repository metric, in this order. */
  const RepoLabelNames: seq<string> := ["repo", "user", "private", "fork", "archived", "license", "language"]

  /** The keys of the repository metrics, in the order they are emitted for each repository. */
  const RepoMetricKeys: seq<string> := ["Stars", "Forks", "OpenIssues", "Watchers", "Size"]

  /** The keys of the quota metrics, in the order they are emitted. */
  const RateMetricKeys: seq<string> := ["Limit", "Remaining", "Reset"]

  /**
   * The descriptor table is usable for emission: every key the emission uses is present, with
   * seven label names for a repository metric and none for a quota metric.
   */
  predicate ConsistentTable(apiMetrics: map<string, Desc>)
  {
    && (forall k :: k in RepoMetricKeys ==> k in apiMetrics && |apiMetrics[k].variableLabels| == |RepoLabelNames|)
    && (forall k :: k in RateMetricKeys ==> k in apiMetrics && apiMetrics[k].variableLabels == [])
  }

  /** The fully-qualified names of the five repository metrics. */
  lemma RepoMetricNames()
    ensures BuildFQName("github", "repo", "stars") == "github_repo_stars"
    ensures BuildFQName("github", "repo", "open_issues") == "github_repo_open_issues"
    ensures BuildFQName("github", "repo", "watchers") == "github_repo_watchers"
    ensures BuildFQName("github", "repo", "forks") == "github_repo_forks"
    ensures BuildFQName("github", "repo", "size_kb") == "github_repo_size_kb"
  {
  }

  /** The fully-qualified names of the three quota metrics. */
  lemma RateMetricNames()
    ensures BuildFQName("github", "rate", "limit") == "github_rate_limit"
    ensures BuildFQName("github", "rate", "remaining") == "github_rate_remaining"
    ensures BuildFQName("github", "rate", "reset") == "github_rate_reset"
  {
  }

  /**
   * Builds the descriptor table: eight entries, the five repository metrics labelled
   * repo, user, private, fork, archived, license, language and the three quota metrics
   * unlabelled.
   */
  method AddMetrics() returns (apiMetrics: map<string, Desc>)
    ensures apiMetrics.Keys == {"Stars", "OpenIssues", "Watchers", "Forks", "Size", "Limit", "Remaining", "Reset"}
    ensures apiMetrics["Stars"].fqName == "github_repo_stars"
    ensures apiMetrics["OpenIssues"].fqName == "github_repo_open_issues"
    ensures apiMetrics["Watchers"].fqName == "github_repo_watchers"
    ensures apiMetrics["Forks"].fqName == "github_repo_forks"
    ensures apiMetrics["Size"].fqName == "github_repo_size_kb"
    ensures apiMetrics["Limit"].fqName == "github_rate_limit"
    ensures apiMetrics["Remaining"].fqName == "github_rate_remaining"
    ensures apiMetrics["Reset"].fqName == "github_rate_reset"
    ensures forall k :: k in RepoMetricKeys ==> apiMetrics[k].variableLabels == RepoLabelNames
    ensures forall k :: k in RateMetricKeys ==> apiMetrics[k].variableLabels == []
    ensures ConsistentTable(apiMetrics)
  {
    RepoMetricNames();
    RateMetricNames();
    apiMetrics := map[];
    apiMetrics := apiMetrics["Stars" := Desc(
      BuildFQName("github", "repo", "stars"),
      "Total number of Stars for given repository",
      ["repo", "user", "private", "fork", "archived", "license", "language"])];
    apiMetrics := apiMetrics["OpenIssues" := Desc(
      BuildFQName("github", "repo", "open_issues"),
      "Total number of open issues for given repository",
      ["repo", "user", "private", "fork", "archived", "license", "language"])];
    apiMetrics := apiMetrics["Watchers" := Desc(
      BuildFQName("github", "repo", "watchers"),
      "Total number of watchers/subscribers for given repository",
      ["repo", "user", "private", "fork", "archived", "license", "language"])];
    apiMetrics := apiMetrics["Forks" := Desc(
      BuildFQName("github", "repo", "forks"),
      "Total number of forks for given repository",
      ["repo", "user", "private", "fork", "archived", "license", "language"])];
    apiMetrics := apiMetrics["Size" := Desc(
      BuildFQName("github", "repo", "size_kb"),
      "Size in KB for given repository",
      ["repo", "user", "private", "fork", "archived", "license", "language"])];
    apiMetrics := apiMetrics["Limit" := Desc(
      BuildFQName("github", "rate", "limit"),
      "Number of API queries allowed in a 60 minute window",
      [])];
    apiMetrics := apiMetrics["Remaining" := Desc(
      BuildFQName("github", "rate", "remaining"),
      "Number of API queries remaining in the current window",
      [])];
    apiMetrics := apiMetrics["Reset" := Desc(
      BuildFQName("github", "rate", "reset"),
      "The time at which the current rate limit window resets in UTC epoch seconds",
      [])];
  }

  /** One emitted sample: the descriptor's key, the label values and the gauge value. */
  datatype Sample = Sample(descKey: string, labelValues: seq<string>, value: int)

  /** The fields the emission dereferences are all set. */
  predicate Labelled(r: Repository)
  {
    r.name.Some? && r.ownerLogin.Some? && r.licenseKey.Some? && r.language.Some?
  }

  predicate AllLabelled(data: seq<Repository>)
  {
    forall i :: 0 <= i < |data| ==> Labelled(data[i])
  }

  /** A flag rendered as a label value. */
  function FormatBool(b: bool): string
  {
    if b then "true" else "false"
  }

  /** The seven label values of a repository, in the order of `RepoLabelNames`. */
  function RepoLabels(r: Repository): seq<string>
    requires Labelled(r)
  {
    [r.name.value, r.ownerLogin.value, FormatBool(r.isPrivate), FormatBool(r.isFork),
     FormatBool(r.isArchived), r.licenseKey.value, r.language.value]
  }

  /** The quota samples, unlabelled. */
  function RateSamples(rates: RateLimits): seq<Sample>
  {
    [Sample("Limit", [], rates.limit), Sample("Remaining", [], rates.remaining), Sample("Reset", [], rates.reset)]
  }

  /** The five samples of each repository in turn. */
  function RepoSamples(data: seq<Repository>): seq<Sample>
    requires AllLabelled(data)
  {
    if data == [] then []
    else
      var r := data[|data| - 1];
      var labels := RepoLabels(r);
      RepoSamples(data[..|data| - 1])
        + [Sample("Stars", labels, r.stargazersCount), Sample("Forks", labels, r.forksCount),
           Sample("OpenIssues", labels, r.openIssues), Sample("Watchers", labels, r.watchers),
           Sample("Size", labels, r.size)]
  }

  /** Everything one call of the emission sends. */
  function Emitted(data: seq<Repository>, rates: RateLimits): seq<Sample>
    requires AllLabelled(data)
  {
    RepoSamples(data) + RateSamples(rates)
  }

  /** The channel samples are sent on; `sent` is everything sent so far. */
  class MetricChannel {
    var sent: seq<Sample>

    constructor ()
      ensures sent == []
    {
      sent := [];
    }

    method Send(m: Sample)
      modifies this
      ensures sent == old(sent) + [m]
    {
      sent := sent + [m];
    }
  }

  /**
   * Sends five labelled samples per repository, in input order, then the three quota samples,
   * and reports no error. The descriptors must be present with matching label counts and the
   * four dereferenced fields of every repository set; otherwise the source panics.
   */
  method ProcessMetrics(apiMetrics: map<string, Desc>, data: seq<Repository>, rates: RateLimits, ch: MetricChannel)
    returns (err: Option<string>)
    requires ConsistentTable(apiMetrics)
    requires AllLabelled(data)
    modifies ch
    ensures ch.sent == old(ch.sent) + Emitted(data, rates)
    ensures err == None
  {
    for i := 0 to |data|
      invariant ch.sent == old(ch.sent) + RepoSamples(data[..i])
    {
      var r := data[i];
      var labels := [r.name.value, r.ownerLogin.value, FormatBool(r.isPrivate), FormatBool(r.isFork),
                     FormatBool(r.isArchived), r.licenseKey.value, r.language.value];
      assert data[..i + 1][..i] == data[..i];
      ch.Send(Sample("Stars", labels, r.stargazersCount));
      ch.Send(Sample("Forks", labels, r.forksCount));
      ch.Send(Sample("OpenIssues", labels, r.openIssues));
      ch.Send(Sample("Watchers", labels, r.watchers));
      ch.Send(Sample("Size", labels, r.size));
    }
    assert data[..|data|] == data;
    ch.Send(Sample("Limit", [], rates.limit));
    ch.Send(Sample("Remaining", [], rates.remaining));
    ch.Send(Sample("Reset", [], rates.reset));
    return None;
  }

  /** Exactly five samples per repository plus three, even for no repository. */
  lemma {:induction false} EmittedCount(data: seq<Repository>, rates: RateLimits)
    requires AllLabelled(data)
    ensures |Emitted(data, rates)| == 5 * |data| + 3
    ensures |RepoSamples(data)| == 5 * |data|
  {
    if data != [] {
      EmittedCount(data[..|data| - 1], rates);
    }
  }

  /**
   * The samples of the `i`-th repository sit at positions 5i to 5i+4: Stars, Forks,
   * OpenIssues, Watchers, Size, all with that repository's seven label values, valued from its
   * star, fork, open-issue, watcher and size fields.
   */
  lemma {:induction false} EmittedForRepository(data: seq<Repository>, rates: RateLimits, i: nat)
    requires AllLabelled(data) && i < |data|
    ensures |Emitted(data, rates)| == 5 * |data| + 3
    ensures var r, out := data[i], Emitted(data, rates);
      && out[5 * i] == Sample("Stars", RepoLabels(r), r.stargazersCount)
      && out[5 * i + 1] == Sample("Forks", RepoLabels(r), r.forksCount)
      && out[5 * i + 2] == Sample("OpenIssues", RepoLabels(r), r.openIssues)
      && out[5 * i + 3] == Sample("Watchers", RepoLabels(r), r.watchers)
      && out[5 * i + 4] == Sample("Size", RepoLabels(r), r.size)
  {
    EmittedCount(data, rates);
    var prefix := data[..|data| - 1];
    EmittedCount(prefix, rates);
    if i < |data| - 1 {
      EmittedForRepository(prefix, rates, i);
      assert prefix[i] == data[i];
      assert RepoSamples(data)[..5 * |prefix|] == RepoSamples(prefix);
    }
  }

  /** The last three samples are the quota's limit, remaining and reset, unlabelled. */
  lemma EmittedRates(data: seq<Repository>, rates: RateLimits)
    requires AllLabelled(data)
    ensures |Emitted(data, rates)| == 5 * |data| + 3
    ensures Emitted(data, rates)[5 * |data|..] ==
      [Sample("Limit", [], rates.limit), Sample("Remaining", [], rates.remaining), Sample("Reset", [], rates.reset)]
  {
    EmittedCount(data, rates);
  }

  /**
   * Every sample names a descriptor of a consistent table and carries as many label values as
   * that descriptor has label names: seven for repository samples, none for quota samples.
   */
  lemma {:induction false} EmittedMatchesTable(apiMetrics: map<string, Desc>, data: seq<Repository>, rates: RateLimits)
    requires ConsistentTable(apiMetrics) && AllLabelled(data)
    ensures forall s :: s in Emitted(data, rates) ==>
      s.descKey in apiMetrics && |s.labelValues| == |apiMetrics[s.descKey].variableLabels|
  {
    var out := Emitted(data, rates);
    EmittedCount(data, rates);
    EmittedRates(data, rates);
    forall s | s in out
      ensures s.descKey in apiMetrics && |s.labelValues| == |apiMetrics[s.descKey].variableLabels|
    {
      var n :| 0 <= n < |out| && out[n] == s;
      if n < 5 * |data| {
        var i := n / 5;
        EmittedForRepository(data, rates, i);
        assert n == 5 * i + n % 5;
        assert s.descKey in RepoMetricKeys && |s.labelValues| == 7;
      } else {
        assert out[n] == out[5 * |data|..][n - 5 * |data|];
        assert s.descKey in RateMetricKeys && s.labelValues == [];
      }
    }
  }
}
