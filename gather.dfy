/**
 * The collection step of a scrape: list the repositories of every owner whose selector is the
 * wildcard, probe the API's quota-status endpoint, and glue the two together. The go-github
 * client, the HTTP transport and the float parser are parameters: `Lister`, `Fetcher` and
 * `Parser` below.
 */
module Gather {
  import opened Wrappers
  import opened Records
  import opened GoStrings
  import opened Seqs
  import Config

  // ---------------------------------------------------------------------------------------
  // isArray
  // ---------------------------------------------------------------------------------------

  type byte = b: int | 0 <= b < 256

  /** The four bytes JSON treats as white space: space, tab, carriage return, line feed. */
  predicate IsJsonSpace(c: byte)
  {
    c == 32 || c == 9 || c == 13 || c == 10
  }

  const OpenBracket: byte := 91

  /** The index of the first byte that is not JSON white space (|body| if there is none). */
  function FirstNonSpace(body: seq<byte>): (k: nat)
    ensures k <= |body|
    ensures forall j :: 0 <= j < k ==> IsJsonSpace(body[j])
    ensures k < |body| ==> !IsJsonSpace(body[k])
  {
    if body == [] then 0
    else if IsJsonSpace(body[0]) then 1 + FirstNonSpace(body[1..])
    else 0
  }

  /** A JSON body holds an array when its first non-white-space byte is `[`. */
  predicate StartsArray(body: seq<byte>)
  {
    var k := FirstNonSpace(body);
    k < |body| && body[k] == OpenBracket
  }

  /** Tells an array payload from an object payload by its first significant byte. */
  method IsArray(body: seq<byte>) returns (isArray: bool)
    ensures isArray == StartsArray(body)
  {
    isArray := false;
    for i := 0 to |body|
      invariant forall j :: 0 <= j < i ==> IsJsonSpace(body[j])
      invariant !isArray
    {
      var c := body[i];
      if IsJsonSpace(c) {
        continue;
      }
      isArray := c == OpenBracket;
      break;
    }
  }

  /** Leading white space does not change the verdict. */
  lemma {:induction false} StartsArrayAfterSpace(ws: seq<byte>, body: seq<byte>)
    requires forall j :: 0 <= j < |ws| ==> IsJsonSpace(ws[j])
    ensures FirstNonSpace(ws + body) == |ws| + FirstNonSpace(body)
    ensures StartsArray(ws + body) == StartsArray(body)
  {
    if ws != [] {
      assert (ws + body)[0] == ws[0] && IsJsonSpace(ws[0]);
      assert (ws + body)[1..] == ws[1..] + body;
      StartsArrayAfterSpace(ws[1..], body);
      assert FirstNonSpace(ws + body) == 1 + FirstNonSpace(ws[1..] + body);
    } else {
      assert ws + body == body;
    }
  }

  /** A body that is empty or all white space is not an array. */
  lemma BlankIsNotArray(body: seq<byte>)
    requires forall j :: 0 <= j < |body| ==> IsJsonSpace(body[j])
    ensures !StartsArray(body)
  {
  }

  // ---------------------------------------------------------------------------------------
  // queryGitHub
  // ---------------------------------------------------------------------------------------

  /** Pagination options of a listing call. */
  datatype ListOptions = ListOptions(perPage: int, page: int)

  /** The only options the collector uses: 100 results of page 0, and no further page. */
  const FirstPage := ListOptions(100, 0)

  /** What the client's "list repositories for owner" call gives back. */
  datatype ListResponse =
    | TransportError(message: string)
    | Listed(repos: seq<Repository>, statusCode: int)

  /** The go-github client's listing call, for an owner and pagination options. */
  type Lister = (string, ListOptions) -> ListResponse

  const StatusOK := 200

  const StatusPrefix := "HTTP status unexpected: "

  /** The error that names an unexpected status, its owner and its selector. */
  function StatusError(code: int, owner: string, repo: string): string
  {
    StatusPrefix + FormatInt(code) + " for " + owner + "/" + repo
  }

  /** The status error names its code unambiguously: for one owner and selector, different codes give different messages. */
  lemma StatusErrorNamesCode(c1: int, c2: int, owner: string, repo: string)
    requires StatusError(c1, owner, repo) == StatusError(c2, owner, repo)
    ensures c1 == c2
  {
    var f1, f2 := FormatInt(c1), FormatInt(c2);
    StatusErrorSplits(c1, owner, repo);
    StatusErrorSplits(c2, owner, repo);
    MiddleUnique(StatusPrefix, f1, f2, " for " + owner + "/" + repo);
    FormatIntInjective(c1, c2);
  }

  lemma StatusErrorSplits(code: int, owner: string, repo: string)
    ensures StatusError(code, owner, repo) == StatusPrefix + FormatInt(code) + (" for " + owner + "/" + repo)
  {
    var f := FormatInt(code);
    SeqAssoc(StatusPrefix + f, " for ", owner, "/", repo);
  }

  lemma SeqAssoc(a: string, b: string, c: string, d: string, e: string)
    ensures a + b + c + d + e == a + (b + c + d + e)
  {
  }

  lemma MiddleUnique(p: string, a: string, b: string, q: string)
    requires p + a + q == p + b + q
    ensures a == b
  {
    var m := p + a + q;
    assert |a| == |b|;
    assert a == m[|p|..|p| + |a|];
    assert b == (p + b + q)[|p|..|p| + |b|];
  }

  /** The error a listing response aborts the walk with, if any. */
  function ListingFailure(owner: string, resp: ListResponse): Option<string>
  {
    match resp
    case TransportError(e) => Some(e)
    case Listed(_, status) => if status != StatusOK then Some(StatusError(status, owner, Config.Wildcard)) else None
  }

  /** The repositories a response carries (none for a transport error). */
  function ReposOf(resp: ListResponse): seq<Repository>
  {
    if resp.Listed? then resp.repos else []
  }

  /** True when the listing call `c` succeeds. */
  predicate CallSucceeds(list: Lister, c: (string, ListOptions))
  {
    ListingFailure(c.0, list(c.0, c.1)).None?
  }

  /**
   * The effect of walking part of the target map: the repositories gathered, the error that
   * stopped the walk (if any), and the listing calls made, in order.
   */
  datatype Walk = Walk(infos: seq<Repository>, err: Option<string>, calls: seq<(string, ListOptions)>)

  const Unwalked := Walk([], None, [])

  /** Walk `a`, then, unless `a` stopped on an error, walk `b`. */
  function Then(a: Walk, b: Walk): Walk
  {
    if a.err.Some? then a else Walk(a.infos + b.infos, b.err, a.calls + b.calls)
  }

  /** One listing call for `owner`. */
  function CallWalk(owner: string, list: Lister): Walk
  {
    var resp := list(owner, FirstPage);
    match ListingFailure(owner, resp)
    case Some(e) => Walk([], Some(e), [(owner, FirstPage)])
    case None => Walk(resp.repos, None, [(owner, FirstPage)])
  }

  /** The walk over one owner's selectors: one listing call per wildcard, others skipped. */
  function SelectorsWalk(owner: string, sels: seq<string>, list: Lister): Walk
  {
    if sels == [] then Unwalked
    else if sels[0] == Config.Wildcard then Then(CallWalk(owner, list), SelectorsWalk(owner, sels[1..], list))
    else SelectorsWalk(owner, sels[1..], list)
  }

  /** The walk over the owners of the target map, in the iteration order `order`. */
  function OwnersWalk(order: seq<string>, repoMap: map<string, seq<string>>, list: Lister): Walk
    requires forall o :: o in order ==> o in repoMap
  {
    if order == [] then Unwalked
    else Then(SelectorsWalk(order[0], repoMap[order[0]], list), OwnersWalk(order[1..], repoMap, list))
  }

  /** `order` is one of the orders in which Go may range over the keys of `repoMap`. */
  ghost predicate IsIterationOrder(order: seq<string>, repoMap: map<string, seq<string>>)
  {
    NoDup(order) && forall o :: o in order <==> o in repoMap
  }

  lemma ThenAssoc(a: Walk, b: Walk, c: Walk)
    ensures Then(Then(a, b), c) == Then(a, Then(b, c))
  {
  }

  lemma ThenUnwalked(a: Walk)
    ensures Then(a, Unwalked) == a && Then(Unwalked, a) == a
  {
  }

  /**
   * Lists the repositories of every wildcard owner in the target map. Each wildcard selector
   * makes one call for page 0 of 100 results; the first transport error or non-200 status
   * ends the walk, returning the repositories gathered so far with that error. `order` is the
   * order in which the map is ranged over; `calls` records the listing calls made.
   */
  method QueryGitHub(list: Lister, repoMap: map<string, seq<string>>, order: seq<string>)
    returns (infos: seq<Repository>, err: Option<string>, ghost calls: seq<(string, ListOptions)>)
    requires IsIterationOrder(order, repoMap)
    ensures Walk(infos, err, calls) == OwnersWalk(order, repoMap, list)
    ensures infos == OwnersWalk(order, repoMap, list).infos && err == OwnersWalk(order, repoMap, list).err
    ensures err.None? ==> infos == Listings(order, repoMap, list)
    ensures err.Some? ==> infos <= Listings(order, repoMap, list)
    ensures err.None? ==> infos == ConcatMap(CallRepos(list), calls)
    ensures err.Some? ==> calls != [] && infos == ConcatMap(CallRepos(list), calls[..|calls| - 1])
  {
    OwnersWalkGathers(order, repoMap, list);
    ghost var total := OwnersWalk(order, repoMap, list);
    infos, calls := [], [];
    for i := 0 to |order|
      invariant Then(Walk(infos, None, calls), OwnersWalk(order[i..], repoMap, list)) == total
    {
      var owner := order[i];
      var repoList := repoMap[owner];
      ghost var rest := OwnersWalk(order[i + 1..], repoMap, list);
      assert order[i..][1..] == order[i + 1..];
      assert repoList[0..] == repoList;
      for j := 0 to |repoList|
        invariant Then(Walk(infos, None, calls), Then(SelectorsWalk(owner, repoList[j..], list), rest)) == total
      {
        var repo := repoList[j];
        assert repoList[j..][1..] == repoList[j + 1..];
        ghost var later := SelectorsWalk(owner, repoList[j + 1..], list);
        if repo == Config.Wildcard {
          ThenAssoc(CallWalk(owner, list), later, rest);
          ThenAssoc(Walk(infos, None, calls), CallWalk(owner, list), Then(later, rest));
          var resp := list(owner, FirstPage);
          calls := calls + [(owner, FirstPage)];
          match resp
          case TransportError(e) =>
            assert infos + [] == infos;
            return infos, Some(e), calls;
          case Listed(repoDatas, statusCode) =>
            if statusCode != StatusOK {
              assert infos + [] == infos;
              return infos, Some(StatusError(statusCode, owner, repo)), calls;
            }
            infos := infos + repoDatas;
        }
      }
      ThenUnwalked(rest);
    }
    ThenUnwalked(Walk(infos, None, calls));
    err := None;
  }

  // ---------------------------------------------------------------------------------------
  // What the walk gathers, independently of how it is walked
  // ---------------------------------------------------------------------------------------

  /** The repositories listed for one owner: one listing per wildcard selector. */
  function SelectorRepos(owner: string, sels: seq<string>, list: Lister): seq<Repository>
  {
    if sels == [] then []
    else (if sels[0] == Config.Wildcard then ReposOf(list(owner, FirstPage)) else []) + SelectorRepos(owner, sels[1..], list)
  }

  /** The listing calls due for one owner: one per wildcard selector, each for the first page. */
  function SelectorCalls(owner: string, sels: seq<string>): seq<(string, ListOptions)>
  {
    if sels == [] then []
    else (if sels[0] == Config.Wildcard then [(owner, FirstPage)] else []) + SelectorCalls(owner, sels[1..])
  }

  function OwnerRepos(repoMap: map<string, seq<string>>, list: Lister): string -> seq<Repository>
  {
    o => if o in repoMap then SelectorRepos(o, repoMap[o], list) else []
  }

  function OwnerCalls(repoMap: map<string, seq<string>>): string -> seq<(string, ListOptions)>
  {
    o => if o in repoMap then SelectorCalls(o, repoMap[o]) else []
  }

  /** Every repository of every wildcard listing, owner by owner in `order`. */
  function Listings(order: seq<string>, repoMap: map<string, seq<string>>, list: Lister): seq<Repository>
  {
    ConcatMap(OwnerRepos(repoMap, list), order)
  }

  /** Every listing call due, owner by owner in `order`. */
  function WildcardCalls(order: seq<string>, repoMap: map<string, seq<string>>): seq<(string, ListOptions)>
  {
    ConcatMap(OwnerCalls(repoMap), order)
  }

  /** `got` is a prefix of `full`, and all of it when `complete`. */
  predicate PrefixUpTo<T(==)>(got: seq<T>, full: seq<T>, complete: bool)
  {
    got <= full && (complete ==> got == full)
  }

  /** The repositories a listing call's response carries. */
  function CallRepos(list: Lister): ((string, ListOptions)) -> seq<Repository>
  {
    (c: (string, ListOptions)) => ReposOf(list(c.0, c.1))
  }

  /**
   * A walk's repositories are exactly what its calls brought back: those of every call when
   * it did not fail, those of every call but the last (failing) one when it did.
   */
  predicate Accumulates(w: Walk, list: Lister)
  {
    && (w.err.None? ==> w.infos == ConcatMap(CallRepos(list), w.calls))
    && (w.err.Some? ==> w.calls != [] && w.infos == ConcatMap(CallRepos(list), w.calls[..|w.calls| - 1]))
  }

  lemma CallWalkAccumulates(owner: string, list: Lister)
    ensures Accumulates(CallWalk(owner, list), list)
  {
    var c := (owner, FirstPage);
    assert ConcatMap(CallRepos(list), [c]) == CallRepos(list)(c) + ConcatMap(CallRepos(list), []);
  }

  lemma ThenAccumulates(a: Walk, b: Walk, list: Lister)
    requires Accumulates(a, list) && Accumulates(b, list)
    ensures Accumulates(Then(a, b), list)
  {
    if a.err.None? {
      var f := CallRepos(list);
      if b.err.None? {
        ConcatMapAppend(f, a.calls, b.calls);
      } else {
        assert (a.calls + b.calls)[..|a.calls + b.calls| - 1] == a.calls + b.calls[..|b.calls| - 1];
        ConcatMapAppend(f, a.calls, b.calls[..|b.calls| - 1]);
      }
    }
  }

  /**
   * A walk gathered a prefix of `repos` and made a prefix of the calls `due` (all of both
   * when it did not fail), every call but the last succeeded, and when the walk failed its
   * last call failed with exactly the walk's error.
   */
  predicate Accounts(w: Walk, repos: seq<Repository>, due: seq<(string, ListOptions)>, list: Lister)
  {
    && PrefixUpTo(w.infos, repos, w.err.None?)
    && PrefixUpTo(w.calls, due, w.err.None?)
    && (forall k :: 0 <= k < |w.calls| - 1 ==> CallSucceeds(list, w.calls[k]))
    && (w.err.None? ==> w.calls == [] || CallSucceeds(list, w.calls[|w.calls| - 1]))
    && (w.err.Some? ==> w.calls != [] && ListingFailure(w.calls[|w.calls| - 1].0, list(w.calls[|w.calls| - 1].0, w.calls[|w.calls| - 1].1)) == w.err)
    && Accumulates(w, list)
  }

  lemma ThenAccounts(a: Walk, b: Walk, ra: seq<Repository>, rb: seq<Repository>,
                     ca: seq<(string, ListOptions)>, cb: seq<(string, ListOptions)>, list: Lister)
    requires Accounts(a, ra, ca, list) && Accounts(b, rb, cb, list)
    ensures Accounts(Then(a, b), ra + rb, ca + cb, list)
  {
    ThenAccumulates(a, b, list);
    if a.err.None? {
      var w := Then(a, b);
      forall k | 0 <= k < |w.calls| - 1
        ensures CallSucceeds(list, w.calls[k])
      {
        if k >= |a.calls| {
          assert w.calls[k] == b.calls[k - |a.calls|];
        }
      }
      if b.calls == [] {
        assert w.calls == a.calls;
      } else {
        assert w.calls[|w.calls| - 1] == b.calls[|b.calls| - 1];
      }
    }
  }

  lemma {:induction false} SelectorsWalkAccounts(owner: string, sels: seq<string>, list: Lister)
    ensures Accounts(SelectorsWalk(owner, sels, list), SelectorRepos(owner, sels, list), SelectorCalls(owner, sels), list)
  {
    if sels != [] {
      SelectorsWalkAccounts(owner, sels[1..], list);
      if sels[0] == Config.Wildcard {
        var resp := list(owner, FirstPage);
        CallWalkAccumulates(owner, list);
        ThenAccounts(CallWalk(owner, list), SelectorsWalk(owner, sels[1..], list),
                     ReposOf(resp), SelectorRepos(owner, sels[1..], list),
                     [(owner, FirstPage)], SelectorCalls(owner, sels[1..]), list);
      } else {
        assert [] + SelectorRepos(owner, sels[1..], list) == SelectorRepos(owner, sels[1..], list);
        assert [] + SelectorCalls(owner, sels[1..]) == SelectorCalls(owner, sels[1..]);
      }
    }
  }

  lemma {:induction false} OwnersWalkAccounts(order: seq<string>, repoMap: map<string, seq<string>>, list: Lister)
    requires forall o :: o in order ==> o in repoMap
    ensures Accounts(OwnersWalk(order, repoMap, list), Listings(order, repoMap, list), WildcardCalls(order, repoMap), list)
  {
    if order != [] {
      var o := order[0];
      SelectorsWalkAccounts(o, repoMap[o], list);
      OwnersWalkAccounts(order[1..], repoMap, list);
      ThenAccounts(SelectorsWalk(o, repoMap[o], list), OwnersWalk(order[1..], repoMap, list),
                   SelectorRepos(o, repoMap[o], list), Listings(order[1..], repoMap, list),
                   SelectorCalls(o, repoMap[o]), WildcardCalls(order[1..], repoMap), list);
    }
  }

  /** What the walk returns is a prefix of the listings, and exactly what its calls brought back. */
  lemma OwnersWalkGathers(order: seq<string>, repoMap: map<string, seq<string>>, list: Lister)
    requires forall o :: o in order ==> o in repoMap
    ensures PrefixUpTo(OwnersWalk(order, repoMap, list).infos, Listings(order, repoMap, list), OwnersWalk(order, repoMap, list).err.None?)
    ensures Accumulates(OwnersWalk(order, repoMap, list), list)
  {
    OwnersWalkAccounts(order, repoMap, list);
  }

  /** What `Accounts` tells about the outcome of a walk. */
  lemma AccountsOutcome(w: Walk, repos: seq<Repository>, due: seq<(string, ListOptions)>, list: Lister)
    requires Accounts(w, repos, due, list)
    ensures w.err.None? <==> forall c :: c in due ==> CallSucceeds(list, c)
    ensures w.err.None? ==> w.infos == repos && w.calls == due && w.infos == ConcatMap(CallRepos(list), w.calls)
    ensures w.err.Some? ==>
            && w.infos <= repos
            && w.calls != []
            && w.infos == ConcatMap(CallRepos(list), w.calls[..|w.calls| - 1])
            && w.calls <= due
            && (forall k :: 0 <= k < |w.calls| - 1 ==> CallSucceeds(list, w.calls[k]))
            && var (owner, opts) := w.calls[|w.calls| - 1];
               ListingFailure(owner, list(owner, opts)) == w.err
  {
    if w.err.None? {
      forall c | c in due
        ensures CallSucceeds(list, c)
      {
        var k :| 0 <= k < |w.calls| && w.calls[k] == c;
      }
    } else {
      var last := w.calls[|w.calls| - 1];
      assert last in due;
    }
  }

  /**
   * The walk fails exactly when some due listing call fails. On success it gathered every
   * listing and made every due call; on failure it made a prefix of the due calls, stopped on
   * the first failing call, whose error it returns, and returns exactly the repositories of
   * the calls before it, a prefix of the listings.
   */
  lemma QueryGitHubOutcome(order: seq<string>, repoMap: map<string, seq<string>>, list: Lister)
    requires IsIterationOrder(order, repoMap)
    ensures var w := OwnersWalk(order, repoMap, list);
      && (w.err.None? <==> forall c :: c in WildcardCalls(order, repoMap) ==> CallSucceeds(list, c))
      && (w.err.None? ==> w.infos == Listings(order, repoMap, list) && w.calls == WildcardCalls(order, repoMap))
      && (w.err.None? ==> w.infos == ConcatMap(CallRepos(list), w.calls))
      && (w.err.Some? ==>
            && w.infos <= Listings(order, repoMap, list)
            && w.calls != []
            && w.infos == ConcatMap(CallRepos(list), w.calls[..|w.calls| - 1])
            && w.calls <= WildcardCalls(order, repoMap)
            && (forall k :: 0 <= k < |w.calls| - 1 ==> CallSucceeds(list, w.calls[k]))
            && var (owner, opts) := w.calls[|w.calls| - 1];
               ListingFailure(owner, list(owner, opts)) == w.err)
  {
    OwnersWalkAccounts(order, repoMap, list);
    AccountsOutcome(OwnersWalk(order, repoMap, list), Listings(order, repoMap, list), WildcardCalls(order, repoMap), list);
  }

  lemma {:induction false} SelectorCallsShape(owner: string, sels: seq<string>)
    ensures forall c :: c in SelectorCalls(owner, sels) ==> c == (owner, FirstPage)
    ensures multiset(SelectorCalls(owner, sels))[(owner, FirstPage)] == multiset(sels)[Config.Wildcard]
  {
    if sels != [] {
      SelectorCallsShape(owner, sels[1..]);
      assert sels == [sels[0]] + sels[1..];
    }
  }

  lemma NoDupTail(order: seq<string>)
    requires NoDup(order) && order != []
    ensures NoDup(order[1..]) && order[0] !in order[1..]
  {
    forall i, j | 0 <= i < j < |order[1..]|
      ensures order[1..][i] != order[1..][j]
    {
      assert order[1..][i] == order[i + 1] && order[1..][j] == order[j + 1];
    }
    forall j | 0 <= j < |order[1..]|
      ensures order[1..][j] != order[0]
    {
      assert order[1..][j] == order[j + 1];
    }
  }

  /** Every due call asks for page 0 of 100 results of an owner of the map. */
  lemma {:induction false} WildcardCallsMembers(order: seq<string>, repoMap: map<string, seq<string>>)
    ensures forall c :: c in WildcardCalls(order, repoMap) ==> c.1 == FirstPage && c.0 in order && c.0 in repoMap
  {
    if order != [] {
      var o := order[0];
      WildcardCallsMembers(order[1..], repoMap);
      if o in repoMap {
        SelectorCallsShape(o, repoMap[o]);
      }
    }
  }

  /** Each owner of the map gets exactly as many listing calls as it has wildcard selectors. */
  lemma {:induction false} WildcardCallsCount(order: seq<string>, repoMap: map<string, seq<string>>, o: string)
    requires NoDup(order) && o in order && o in repoMap
    ensures multiset(WildcardCalls(order, repoMap))[(o, FirstPage)] == multiset(repoMap[o])[Config.Wildcard]
  {
    var first := order[0];
    NoDupTail(order);
    var head := OwnerCalls(repoMap)(first);
    var tail := WildcardCalls(order[1..], repoMap);
    assert WildcardCalls(order, repoMap) == head + tail;
    if first == o {
      SelectorCallsShape(o, repoMap[o]);
      WildcardCallsMembers(order[1..], repoMap);
      assert (o, FirstPage) !in tail;
    } else {
      WildcardCallsCount(order[1..], repoMap, o);
      if first in repoMap {
        SelectorCallsShape(first, repoMap[first]);
      }
      assert (o, FirstPage) !in head;
    }
  }

  /**
   * Go ranges over a map in no fixed order; the outcome does not depend on it: for any two
   * iteration orders, the walk fails under both or under neither, and when it succeeds it
   * gathers the same repositories and makes the same calls, up to order.
   */
  lemma QueryGitHubOrderIndependent(o1: seq<string>, o2: seq<string>, repoMap: map<string, seq<string>>, list: Lister)
    requires IsIterationOrder(o1, repoMap) && IsIterationOrder(o2, repoMap)
    ensures OwnersWalk(o1, repoMap, list).err.None? <==> OwnersWalk(o2, repoMap, list).err.None?
    ensures OwnersWalk(o1, repoMap, list).err.None? ==>
      && multiset(OwnersWalk(o1, repoMap, list).infos) == multiset(OwnersWalk(o2, repoMap, list).infos)
      && multiset(OwnersWalk(o1, repoMap, list).calls) == multiset(OwnersWalk(o2, repoMap, list).calls)
  {
    ConcatMapPermutation(OwnerRepos(repoMap, list), o1, o2);
    ConcatMapPermutation(OwnerCalls(repoMap), o1, o2);
    var c1, c2 := WildcardCalls(o1, repoMap), WildcardCalls(o2, repoMap);
    assert forall c :: c in c1 <==> c in c2 by {
      forall c
        ensures c in c1 <==> c in c2
      {
        assert c in c1 <==> multiset(c1)[c] > 0;
        assert c in c2 <==> multiset(c2)[c] > 0;
      }
    }
    QueryGitHubOutcome(o1, repoMap, list);
    QueryGitHubOutcome(o2, repoMap, list);
  }

  // ---------------------------------------------------------------------------------------
  // getRates
  // ---------------------------------------------------------------------------------------

  /** What an HTTP GET gives back: a transport error, or a status code and headers. */
  datatype HttpResponse =
    | HttpError(message: string)
    | HttpOk(statusCode: int, header: map<string, string>)

  /** The HTTP transport: the response to a GET of a URL with a token. */
  type Fetcher = (string, string) -> HttpResponse

  /** Go's `strconv.ParseFloat`, restricted to integral values: None when parsing fails. */
  type Parser = string -> Option<int>

  const RateEndpoint := "/rate_limit"
  const LimitHeader := "X-RateLimit-Limit"
  const RemainingHeader := "X-RateLimit-Remaining"
  const ResetHeader := "X-RateLimit-Reset"
  const RateLimitingDisabled := "Rate Limiting not enabled in GitHub API"
  const StatusNotFound := 404

  /** A character Go accepts in a header field name: a token character of RFC 7230. */
  predicate IsTokenChar(c: char)
  {
    || ('a' <= c <= 'z') || ('A' <= c <= 'Z') || ('0' <= c <= '9')
    || c in "!#$%&'*+-.^_`|~"
  }

  function UpperAscii(c: char): char
  {
    if 'a' <= c <= 'z' then (c as int - 32) as char else c
  }

  function LowerAscii(c: char): char
  {
    if 'A' <= c <= 'Z' then (c as int + 32) as char else c
  }

  /** Every character of `s` is a token character. */
  predicate IsTokenName(s: string)
  {
    forall i :: 0 <= i < |s| ==> IsTokenChar(s[i])
  }

  /** `a` and `b` are the same text up to the case of ASCII letters. */
  predicate SameIgnoringCase(a: string, b: string)
  {
    |a| == |b| && forall i :: 0 <= i < |a| ==> LowerAscii(a[i]) == LowerAscii(b[i])
  }

  /**
   * The canonical spelling of `s` from its first character on: a letter that starts a word
   * (`upper`, or the one after a hyphen) in upper case, every other letter in lower case.
   */
  function CanonicalFrom(s: string, upper: bool): (r: string)
    ensures |r| == |s|
    ensures forall i :: 0 <= i < |s| ==> LowerAscii(r[i]) == LowerAscii(s[i]) && (r[i] == '-' <==> s[i] == '-')
    ensures forall i :: 0 <= i < |s| ==>
      r[i] == if (if i == 0 then upper else s[i - 1] == '-') then UpperAscii(s[i]) else LowerAscii(s[i])
  {
    if s == [] then []
    else [if upper then UpperAscii(s[0]) else LowerAscii(s[0])] + CanonicalFrom(s[1..], s[0] == '-')
  }

  /** The canonical spelling of the `i`-th character of a header name. */
  function CanonicalCharAt(key: string, i: nat): char
    requires i < |key|
  {
    if i == 0 || key[i - 1] == '-' then UpperAscii(key[i]) else LowerAscii(key[i])
  }

  /**
   * `textproto.CanonicalMIMEHeaderKey`: the canonical spelling of a header name, or the name
   * unchanged when it holds a character that is not a token character.
   */
  function CanonicalKey(key: string): (r: string)
    ensures SameIgnoringCase(r, key)
    ensures !IsTokenName(key) ==> r == key
    ensures IsTokenName(key) ==> forall i :: 0 <= i < |key| ==> r[i] == CanonicalCharAt(key, i)
  {
    if IsTokenName(key) then CanonicalFrom(key, true) else key
  }

  /**
   * `Header.Get`: the value stored under the canonical spelling of `key`, or "" when there is
   * none. net/http stores the header names of a response in canonical spelling, and a
   * header's first value stands for the header here.
   */
  function HeaderGet(header: map<string, string>, key: string): string
  {
    var k := CanonicalKey(key);
    if k in header then header[k] else ""
  }

  lemma LowerAsciiSame(c: char, d: char)
    requires LowerAscii(c) == LowerAscii(d)
    ensures UpperAscii(c) == UpperAscii(d)
    ensures IsTokenChar(c) <==> IsTokenChar(d)
  {
  }

  lemma {:induction false} CanonicalFromIgnoresCase(a: string, b: string, upper: bool)
    requires SameIgnoringCase(a, b)
    ensures CanonicalFrom(a, upper) == CanonicalFrom(b, upper)
  {
    if a != [] {
      LowerAsciiSame(a[0], b[0]);
      assert a[0] == '-' <==> b[0] == '-';
      assert SameIgnoringCase(a[1..], b[1..]) by {
        forall i | 0 <= i < |a[1..]|
          ensures LowerAscii(a[1..][i]) == LowerAscii(b[1..][i])
        {
          assert a[1..][i] == a[i + 1] && b[1..][i] == b[i + 1];
        }
      }
      CanonicalFromIgnoresCase(a[1..], b[1..], a[0] == '-');
    }
  }

  lemma TokenNameIgnoresCase(a: string, b: string)
    requires SameIgnoringCase(a, b)
    ensures IsTokenName(a) <==> IsTokenName(b)
  {
    forall i | 0 <= i < |a|
      ensures IsTokenChar(a[i]) <==> IsTokenChar(b[i])
    {
      LowerAsciiSame(a[i], b[i]);
    }
  }

  /**
   * Header names made of token characters that differ only in the case of their letters have
   * one canonical spelling. (Other names are left as they are, case and all.)
   */
  lemma CanonicalKeyIgnoresCase(a: string, b: string)
    requires IsTokenName(a) && SameIgnoringCase(a, b)
    ensures CanonicalKey(a) == CanonicalKey(b)
  {
    TokenNameIgnoresCase(a, b);
    CanonicalFromIgnoresCase(a, b, true);
  }

  /** So `Header.Get` finds a header however the case of the asked name is spelt. */
  lemma HeaderGetIgnoresCase(header: map<string, string>, a: string, b: string)
    requires IsTokenName(a) && SameIgnoringCase(a, b)
    ensures HeaderGet(header, a) == HeaderGet(header, b)
  {
    CanonicalKeyIgnoresCase(a, b);
  }

  lemma {:induction false} CanonicalFromIdempotent(s: string, upper: bool)
    ensures CanonicalFrom(CanonicalFrom(s, upper), upper) == CanonicalFrom(s, upper)
  {
    if s != [] {
      var r := CanonicalFrom(s, upper);
      assert r[1..] == CanonicalFrom(s[1..], s[0] == '-');
      CanonicalFromIdempotent(s[1..], s[0] == '-');
    }
  }

  /** A canonical spelling is its own canonical spelling. */
  lemma CanonicalKeyIdempotent(key: string)
    ensures CanonicalKey(CanonicalKey(key)) == CanonicalKey(key)
  {
    if IsTokenName(key) {
      TokenNameIgnoresCase(CanonicalFrom(key, true), key);
      CanonicalFromIdempotent(key, true);
    }
  }

  /** The quota headers are looked up under the spellings net/http stores them under. */
  lemma RateHeadersCanonical()
    ensures CanonicalKey(LimitHeader) == "X-Ratelimit-Limit"
    ensures CanonicalKey(RemainingHeader) == "X-Ratelimit-Remaining"
    ensures CanonicalKey(ResetHeader) == "X-Ratelimit-Reset"
  {
    LimitHeaderCanonical();
    RemainingHeaderCanonical();
    ResetHeaderCanonical();
  }

  lemma LimitHeaderCanonical()
    ensures CanonicalKey(LimitHeader) == "X-Ratelimit-Limit"
  {
    var key := LimitHeader;
    assert forall i :: 0 <= i < |key| ==> IsTokenChar(key[i]);
    HeaderCanonical(key, "X-Ratelimit-Limit");
  }

  lemma RemainingHeaderCanonical()
    ensures CanonicalKey(RemainingHeader) == "X-Ratelimit-Remaining"
  {
    var key := RemainingHeader;
    assert forall i :: 0 <= i < |key| ==> IsTokenChar(key[i]);
    HeaderCanonical(key, "X-Ratelimit-Remaining");
  }

  lemma ResetHeaderCanonical()
    ensures CanonicalKey(ResetHeader) == "X-Ratelimit-Reset"
  {
    var key := ResetHeader;
    assert forall i :: 0 <= i < |key| ==> IsTokenChar(key[i]);
    HeaderCanonical(key, "X-Ratelimit-Reset");
  }

  lemma HeaderCanonical(key: string, spelling: string)
    requires |key| == |spelling| && forall i :: 0 <= i < |key| ==> IsTokenChar(key[i])
    requires forall i :: 0 <= i < |key| ==> spelling[i] == CanonicalCharAt(key, i)
    ensures CanonicalKey(key) == spelling
  {
    assert IsTokenName(key);
  }

  /** The error of a header value that does not parse. */
  function ParseError(value: string): string
  {
    "strconv.ParseFloat: parsing \"" + value + "\": invalid syntax"
  }

  /** The quota snapshot and the error met while probing it. */
  datatype RateProbe = RateProbe(rates: RateLimits, err: Option<string>)

  /**
   * Probes the quota-status endpoint `baseURL + "/rate_limit"`. A transport error, a 404
   * (rate limiting switched off) or a header that fails to parse gives zero-valued limits and
   * an error; otherwise the three header values, with no error. Each header is looked up
   * under the canonical spelling of its name, so "X-RateLimit-Limit" finds "X-Ratelimit-Limit".
   */
  function GetRates(baseURL: string, token: string, fetch: Fetcher, parse: Parser): (p: RateProbe)
    ensures var resp := fetch(baseURL + RateEndpoint, token);
      && (p.err.None? <==>
            && resp.HttpOk?
            && resp.statusCode != StatusNotFound
            && parse(HeaderGet(resp.header, LimitHeader)).Some?
            && parse(HeaderGet(resp.header, RemainingHeader)).Some?
            && parse(HeaderGet(resp.header, ResetHeader)).Some?)
      && (p.err.Some? ==> p.rates == ZeroRates)
      && (p.err.None? ==> p.rates == RateLimits(
            parse(HeaderGet(resp.header, LimitHeader)).value,
            parse(HeaderGet(resp.header, RemainingHeader)).value,
            parse(HeaderGet(resp.header, ResetHeader)).value))
      && (resp.HttpError? ==> p.err == Some(resp.message))
      && (resp.HttpOk? && resp.statusCode == StatusNotFound ==> p.err == Some(RateLimitingDisabled))
  {
    var url := baseURL + RateEndpoint;
    match fetch(url, token)
    case HttpError(e) => RateProbe(ZeroRates, Some(e))
    case HttpOk(statusCode, header) =>
      if statusCode == StatusNotFound then RateProbe(ZeroRates, Some(RateLimitingDisabled))
      else
        var limitText := HeaderGet(header, LimitHeader);
        match parse(limitText)
        case None => RateProbe(ZeroRates, Some(ParseError(limitText)))
        case Some(limit) =>
          var remText := HeaderGet(header, RemainingHeader);
          match parse(remText)
          case None => RateProbe(ZeroRates, Some(ParseError(remText)))
          case Some(rem) =>
            var resetText := HeaderGet(header, ResetHeader);
            match parse(resetText)
            case None => RateProbe(ZeroRates, Some(ParseError(resetText)))
            case Some(reset) => RateProbe(RateLimits(limit, rem, reset), None)
  }

  // ---------------------------------------------------------------------------------------
  // gatherData
  // ---------------------------------------------------------------------------------------

  /**
   * One scrape's collection: list the target map's repositories, then probe the quota. A
   * listing failure is returned with the partial data and no rates, and the quota is not
   * probed; a probe failure is only logged, so the data comes back with the probe's
   * (zero-valued) limits and no error.
   */
  method GatherData(apiURL: string, apiToken: string, targetRepos: map<string, seq<string>>, order: seq<string>,
                    list: Lister, fetch: Fetcher, parse: Parser)
    returns (data: seq<Repository>, rates: Option<RateLimits>, err: Option<string>)
    requires IsIterationOrder(order, targetRepos)
    ensures var w := OwnersWalk(order, targetRepos, list); data == w.infos && err == w.err
    ensures err.Some? ==> rates == None
    ensures err.None? ==> rates == Some(GetRates(apiURL, apiToken, fetch, parse).rates)
  {
    data := [];
    ghost var calls;
    data, err, calls := QueryGitHub(list, targetRepos, order);
    if err != None {
      return data, None, err;
    }
    var probe := GetRates(apiURL, apiToken, fetch, parse);
    rates := Some(probe.rates);
    return data, rates, None;
  }
}
