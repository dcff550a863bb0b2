/**
  The response handling of wg_api.js. Each lookup's HTTP round trip is
  replaced by its decoded outcome, passed in as a `Response`; what remains
  is the input validation, the two error branches every lookup shares, and
  the logic each lookup runs on the decoded body.
 */
module WgApi {
  import JsText
  import Sorting
  import UtilsStats

  datatype Option<T> = None | Some(value: T)

  /** What `request.get` plus `JSON.parse` deliver to a callback. */
  datatype Response<T> =
    | TransportError(error: string)          // the `error` argument of the callback
    | ApiError(code: string, message: string) // a body whose `status` is 'error'
    | Ok(body: T)

  /** How a lookup's promise settles. */
  datatype Outcome<T> = Resolved(value: T) | Rejected(reason: string)

  const MSG_PROFILE_HIDDEN := "Profile hidden.\n"
  const MSG_NO_STATS := "First game, or this player does not own this ship.\n"
  const MSG_FIRST_PVP := "First game in PvP, but has played this ship in PvE before.\n"

  const ERR_PLAYER_ID_EMPTY := "Player ID is empty!"
  const ERR_PLAYER_NAME_EMPTY := "Player name is empty!"
  const ERR_PLAYER_NAME_MULTIPLE_EMPTY := "Player names are empty!"
  const ERR_SHIP_ID_EMPTY := "Ship ID is empty!"
  const ERR_SHIP_NAME_EMPTY := "Ship name is empty!"
  const WARN_NO_EXACT_MATCH_SHIP := "An exact ship name match was not found; showing the closest result."

  function ErrNotFoundName(name: string): string
  {
    name + " was not found. Check your spelling and try again."
  }

  function ErrNotFoundId(id: int): string
  {
    JsText.Decimal(id) + " was not found. Check the ID and try again."
  }

  function ErrConnection(error: string): string
  {
    "ERROR: Error while contacting the Wargaming API: " + error
  }

  function ErrReturn(code: string, message: string): string
  {
    "ERROR: Wargaming API returned the following error: " + code + " " + message
  }

  /** The rejection a failed response causes, before any of its data is read. */
  function FailureReason<T>(resp: Response<T>): string
    requires !resp.Ok?
  {
    match resp
    case TransportError(error) => ErrConnection(error)
    case ApiError(code, message) => ErrReturn(code, message)
  }

  // ---------------------------------------------------------------------
  // searchMultiplePlayerIds
  // ---------------------------------------------------------------------

  /** One entry of the match file's `vehicles`; `playerId` is attached once resolved. */
  datatype Vehicle = Vehicle(name: string, shipId: int, relation: int, playerId: Option<int>)

  /** One entry of an `account/list` answer. */
  datatype Account = Account(nickname: string, accountId: int)

  datatype MissingPlayer = MissingPlayer(reason: string, relation: int)

  datatype Lookup = Lookup(matching: seq<Vehicle>, missing: seq<MissingPlayer>)

  function VehicleName(v: Vehicle): string { v.name }

  function AccountNickname(a: Account): string { a.nickname }

  /** Relation given to a returned account that nobody asked for. */
  const UNKNOWN_RELATION := -1

  function WithId(v: Vehicle, a: Account): Vehicle
  {
    v.(playerId := Some(a.accountId))
  }

  /**
    The merge loop over the two sorted lists, as a recursive function of
    what is left of each; it stops as soon as either list is used up.
   */
  function MergeSorted(requested: seq<Vehicle>, returned: seq<Account>): Lookup
    decreases |requested| + |returned|
  {
    if |requested| == 0 || |returned| == 0 then Lookup([], [])
    else if JsText.Less(requested[0].name, returned[0].nickname) then
      var rest := MergeSorted(requested[1..], returned);
      rest.(missing := [MissingPlayer(ErrNotFoundName(requested[0].name), requested[0].relation)] + rest.missing)
    else if JsText.Less(returned[0].nickname, requested[0].name) then
      var rest := MergeSorted(requested, returned[1..]);
      rest.(missing := [MissingPlayer(ErrNotFoundName(returned[0].nickname), UNKNOWN_RELATION)] + rest.missing)
    else
      var rest := MergeSorted(requested[1..], returned[1..]);
      rest.(matching := [WithId(requested[0], returned[0])] + rest.matching)
  }

  /**
    The merge loop's invariant: what is merged so far, followed by the merge
    of what is left of each list, is the merge of the whole lists.
   */
  ghost predicate MergedUpTo(requested: seq<Vehicle>, returned: seq<Account>, m: nat, w: nat,
                             matching: seq<Vehicle>, missing: seq<MissingPlayer>)
  {
    && m <= |requested| && w <= |returned|
    && var rest := MergeSorted(requested[m..], returned[w..]);
       MergeSorted(requested, returned) == Lookup(matching + rest.matching, missing + rest.missing)
  }

  /** The invariant holds before the first turn. */
  lemma MergeStart(requested: seq<Vehicle>, returned: seq<Account>)
    ensures MergedUpTo(requested, returned, 0, 0, [], [])
  {
    assert requested[0..] == requested && returned[0..] == returned;
  }

  /** Once either list is used up, what is merged so far is the whole merge. */
  lemma MergeEnd(requested: seq<Vehicle>, returned: seq<Account>, m: nat, w: nat,
                 matching: seq<Vehicle>, missing: seq<MissingPlayer>)
    requires MergedUpTo(requested, returned, m, w, matching, missing)
    requires m == |requested| || w == |returned|
    ensures MergeSorted(requested, returned) == Lookup(matching, missing)
  {
    assert MergeSorted(requested[m..], returned[w..]) == Lookup([], []);
    assert matching + [] == matching && missing + [] == missing;
  }

  /** One turn of the merge from positions `m` and `w` keeps the invariant. */
  lemma MergeAdvance(requested: seq<Vehicle>, returned: seq<Account>, m: nat, w: nat,
                     matching: seq<Vehicle>, missing: seq<MissingPlayer>)
    requires MergedUpTo(requested, returned, m, w, matching, missing)
    requires m < |requested| && w < |returned|
    ensures var a, b := requested[m], returned[w];
            if JsText.Less(a.name, b.nickname) then
              MergedUpTo(requested, returned, m + 1, w, matching,
                         missing + [MissingPlayer(ErrNotFoundName(a.name), a.relation)])
            else if JsText.Less(b.nickname, a.name) then
              MergedUpTo(requested, returned, m, w + 1, matching,
                         missing + [MissingPlayer(ErrNotFoundName(b.nickname), UNKNOWN_RELATION)])
            else
              MergedUpTo(requested, returned, m + 1, w + 1, matching + [WithId(a, b)], missing)
  {
    var a, b := requested[m], returned[w];
    assert requested[m..][1..] == requested[m + 1..];
    assert returned[w..][1..] == returned[w + 1..];
    var rest := MergeSorted(requested[m..], returned[w..]);
    if JsText.Less(a.name, b.nickname) {
      var entry := MissingPlayer(ErrNotFoundName(a.name), a.relation);
      var next := MergeSorted(requested[m + 1..], returned[w..]);
      assert rest.missing == [entry] + next.missing && rest.matching == next.matching;
      assert missing + rest.missing == (missing + [entry]) + next.missing;
    } else if JsText.Less(b.nickname, a.name) {
      var entry := MissingPlayer(ErrNotFoundName(b.nickname), UNKNOWN_RELATION);
      var next := MergeSorted(requested[m..], returned[w + 1..]);
      assert rest.missing == [entry] + next.missing && rest.matching == next.matching;
      assert missing + rest.missing == (missing + [entry]) + next.missing;
    } else {
      var next := MergeSorted(requested[m + 1..], returned[w + 1..]);
      assert rest.matching == [WithId(a, b)] + next.matching && rest.missing == next.missing;
      assert matching + rest.matching == (matching + [WithId(a, b)]) + next.matching;
    }
  }

  /**
    The `while` loop of lines 132-155 over the two sorted arrays; each turn
    advances `multIndex`, `wgIndex` or both.
   */
  method MergeByName(multPlayerNames: array<Vehicle>, wgSearchResults: array<Account>) returns (result: Lookup)
    ensures result == MergeSorted(multPlayerNames[..], wgSearchResults[..])
  {
    var requested, returned := multPlayerNames[..], wgSearchResults[..];
    var multIndex, wgIndex := 0, 0;
    var matching: seq<Vehicle> := [];
    var missing: seq<MissingPlayer> := [];
    MergeStart(requested, returned);
    while multIndex < |requested| && wgIndex < |returned|
      invariant MergedUpTo(requested, returned, multIndex, wgIndex, matching, missing)
      decreases |requested| - multIndex + |returned| - wgIndex
    {
      var player, result := requested[multIndex], returned[wgIndex];
      MergeAdvance(requested, returned, multIndex, wgIndex, matching, missing);
      if JsText.Less(player.name, result.nickname) {
        missing := missing + [MissingPlayer(ErrNotFoundName(player.name), player.relation)];
        multIndex := multIndex + 1;
      } else if JsText.Less(result.nickname, player.name) {
        missing := missing + [MissingPlayer(ErrNotFoundName(result.nickname), UNKNOWN_RELATION)];
        wgIndex := wgIndex + 1;
      } else {
        matching := matching + [WithId(player, result)];
        multIndex := multIndex + 1;
        wgIndex := wgIndex + 1;
      }
    }
    MergeEnd(requested, returned, multIndex, wgIndex, matching, missing);
    result := Lookup(matching, missing);
  }

  /**
    `searchMultiplePlayerIds(multPlayerNames)` given the answer to its one
    exact-match request: both lists are sorted in place, then merged.
    `null` stands for an undefined argument.
   */
  method SearchMultiplePlayerIds(multPlayerNames: array?<Vehicle>, resp: Response<seq<Account>>)
    returns (out: Outcome<Lookup>)
    modifies multPlayerNames
    ensures multPlayerNames == null || multPlayerNames.Length == 0 ==>
              out == Rejected(ERR_PLAYER_NAME_MULTIPLE_EMPTY)
    ensures multPlayerNames != null && multPlayerNames.Length > 0 && !resp.Ok? ==>
              out == Rejected(FailureReason(resp)) && multPlayerNames[..] == old(multPlayerNames[..])
    ensures multPlayerNames != null && multPlayerNames.Length > 0 && resp.Ok? ==>
              && Sorting.SortedBy(multPlayerNames[..], VehicleName)
              && multiset(multPlayerNames[..]) == multiset(old(multPlayerNames[..]))
              && exists results: seq<Account> ::
                   && Sorting.SortedBy(results, AccountNickname)
                   && multiset(results) == multiset(resp.body)
                   && out == Resolved(MergeSorted(multPlayerNames[..], results))
  {
    if multPlayerNames == null || multPlayerNames.Length == 0 {
      return Rejected(ERR_PLAYER_NAME_MULTIPLE_EMPTY);
    }
    if !resp.Ok? {
      return Rejected(FailureReason(resp));
    }
    var data := resp.body;
    var wgSearchResults := new Account[|data|](i requires 0 <= i < |data| => data[i]);
    assert wgSearchResults[..] == data;
    Sorting.SortByKey(multPlayerNames, VehicleName);
    Sorting.SortByKey(wgSearchResults, AccountNickname);
    var lookup := MergeByName(multPlayerNames, wgSearchResults);
    out := Resolved(lookup);
  }

  /** Neither output is longer than the loop has turns, and each match uses up one name of each side. */
  lemma {:induction false} MergeCounts(requested: seq<Vehicle>, returned: seq<Account>)
    ensures var r := MergeSorted(requested, returned);
            && |r.matching| + |r.missing| <= |requested| + |returned|
            && |r.matching| <= |requested| && |r.matching| <= |returned|
    decreases |requested| + |returned|
  {
    if |requested| > 0 && |returned| > 0 {
      if JsText.Less(requested[0].name, returned[0].nickname) {
        MergeCounts(requested[1..], returned);
      } else if JsText.Less(returned[0].nickname, requested[0].name) {
        MergeCounts(requested, returned[1..]);
      } else {
        MergeCounts(requested[1..], returned[1..]);
      }
    }
  }

  /**
    Every matching entry is a requested vehicle whose name equals a returned
    nickname, with `playerId` set to that account's id.
   */
  lemma {:induction false} MergeMatchingSound(requested: seq<Vehicle>, returned: seq<Account>)
    ensures forall v :: v in MergeSorted(requested, returned).matching ==>
              exists u, a :: u in requested && a in returned && u.name == a.nickname && v == WithId(u, a)
    decreases |requested| + |returned|
  {
    if |requested| > 0 && |returned| > 0 {
      if JsText.Less(requested[0].name, returned[0].nickname) {
        MergeMatchingSound(requested[1..], returned);
      } else if JsText.Less(returned[0].nickname, requested[0].name) {
        MergeMatchingSound(requested, returned[1..]);
      } else {
        MergeMatchingSound(requested[1..], returned[1..]);
        JsText.LessTrichotomy(requested[0].name, returned[0].nickname);
        var m := MergeSorted(requested, returned).matching;
        assert m[0] == WithId(requested[0], returned[0]);
        forall v | v in m
          ensures exists u, a :: u in requested && a in returned && u.name == a.nickname && v == WithId(u, a)
        {
          if v != m[0] {
            assert v in MergeSorted(requested[1..], returned[1..]).matching;
          }
        }
      }
    }
  }

  /** A sorted list stays sorted without its head, and its head's key is the least. */
  lemma SortedHead<T>(s: seq<T>, key: T -> string, x: T)
    requires Sorting.SortedBy(s, key) && x in s
    ensures Sorting.SortedBy(s[1..], key)
    ensures JsText.LessOrEqual(key(s[0]), key(x))
    ensures x != s[0] ==> x in s[1..]
  {
    var i :| 0 <= i < |s| && s[i] == x;
    if i == 0 {
      JsText.LessIrreflexive(key(x));
    } else {
      assert s[1..][i - 1] == x;
    }
    forall p, q | 0 <= p < q < |s[1..]|
      ensures JsText.LessOrEqual(key(s[1..][p]), key(s[1..][q]))
    {
      assert s[1..][p] == s[p + 1] && s[1..][q] == s[q + 1];
    }
  }

  /**
    With both lists sorted, the merge is complete: a requested vehicle
    whose name some returned account carries as its nickname is matched,
    with an id attached.
   */
  lemma {:induction false} MergeMatchingComplete(requested: seq<Vehicle>, returned: seq<Account>, u: Vehicle, a: Account)
    requires Sorting.SortedBy(requested, VehicleName) && Sorting.SortedBy(returned, AccountNickname)
    requires u in requested && a in returned && u.name == a.nickname
    ensures exists v :: v in MergeSorted(requested, returned).matching && v.name == u.name && v.playerId.Some?
    decreases |requested| + |returned|
  {
    var r0, q0 := requested[0], returned[0];
    SortedHead(requested, VehicleName, u);
    SortedHead(returned, AccountNickname, a);
    var m := MergeSorted(requested, returned).matching;
    if JsText.Less(r0.name, q0.nickname) {
      if u == r0 {
        JsText.LessAsymmetric(r0.name, q0.nickname);
      }
      MergeMatchingComplete(requested[1..], returned, u, a);
    } else if JsText.Less(q0.nickname, r0.name) {
      if a == q0 {
        JsText.LessAsymmetric(q0.nickname, r0.name);
      }
      MergeMatchingComplete(requested, returned[1..], u, a);
    } else {
      JsText.LessTrichotomy(r0.name, q0.nickname);
      assert m[0] == WithId(r0, q0);
      if r0.name != u.name {
        MergeMatchingComplete(requested[1..], returned[1..], u, a);
        var v :| v in MergeSorted(requested[1..], returned[1..]).matching && v.name == u.name && v.playerId.Some?;
        assert v in m;
      }
    }
  }

  /**
    A requested name that is not returned is missing with its own relation;
    a returned nickname that was not requested is missing with relation -1.
   */
  lemma {:induction false} MergeMissingSound(requested: seq<Vehicle>, returned: seq<Account>)
    ensures forall x :: x in MergeSorted(requested, returned).missing ==>
              (exists u :: u in requested && x == MissingPlayer(ErrNotFoundName(u.name), u.relation)) ||
              (exists a :: a in returned && x == MissingPlayer(ErrNotFoundName(a.nickname), UNKNOWN_RELATION))
    decreases |requested| + |returned|
  {
    if |requested| > 0 && |returned| > 0 {
      var r := MergeSorted(requested, returned);
      if JsText.Less(requested[0].name, returned[0].nickname) {
        MergeMissingSound(requested[1..], returned);
        forall x | x in r.missing && x != r.missing[0]
          ensures x in MergeSorted(requested[1..], returned).missing
        {
        }
      } else if JsText.Less(returned[0].nickname, requested[0].name) {
        MergeMissingSound(requested, returned[1..]);
        forall x | x in r.missing && x != r.missing[0]
          ensures x in MergeSorted(requested, returned[1..]).missing
        {
        }
      } else {
        MergeMissingSound(requested[1..], returned[1..]);
      }
    }
  }

  function Names(vs: seq<Vehicle>): seq<string>
  {
    seq(|vs|, i requires 0 <= i < |vs| => vs[i].name)
  }

  function Nicknames(accounts: seq<Account>): seq<string>
  {
    seq(|accounts|, i requires 0 <= i < |accounts| => accounts[i].nickname)
  }

  /**
    When the answer holds exactly the requested names, position by position,
    nothing is missing and every vehicle is matched with the account beside it.
   */
  lemma {:induction false} MergeAllFound(requested: seq<Vehicle>, returned: seq<Account>)
    requires Names(requested) == Nicknames(returned)
    ensures var r := MergeSorted(requested, returned);
            && r.missing == []
            && |r.matching| == |requested|
            && forall i :: 0 <= i < |requested| ==> r.matching[i] == WithId(requested[i], returned[i])
    decreases |requested|
  {
    assert |requested| == |Names(requested)|;
    if |requested| > 0 {
      assert requested[0].name == Names(requested)[0];
      JsText.LessIrreflexive(requested[0].name);
      assert Names(requested[1..]) == Names(requested)[1..];
      assert Nicknames(returned[1..]) == Nicknames(returned)[1..];
      MergeAllFound(requested[1..], returned[1..]);
    }
  }

  ghost predicate Ascending(s: seq<string>)
  {
    forall i, j :: 0 <= i < j < |s| ==> JsText.LessOrEqual(s[i], s[j])
  }

  lemma HeadIsLeast(s: seq<string>, x: string)
    requires Ascending(s) && x in s
    ensures JsText.LessOrEqual(s[0], x)
  {
    if s[0] == x {
      JsText.LessIrreflexive(x);
    }
  }

  /** Two sorted lists of strings with the same elements are the same list. */
  lemma {:induction false} SortedUnique(s: seq<string>, t: seq<string>)
    requires Ascending(s) && Ascending(t)
    requires multiset(s) == multiset(t)
    ensures s == t
  {
    assert |t| == |multiset(t)| == |multiset(s)| == |s|;
    if |s| > 0 {
      assert s[0] in multiset(t) && t[0] in multiset(s);
      HeadIsLeast(t, s[0]);
      HeadIsLeast(s, t[0]);
      JsText.LessTrichotomy(s[0], t[0]);
      assert s[0] == t[0];
      assert multiset(s[1..]) == multiset(t[1..]) by {
        assert s == [s[0]] + s[1..] && t == [t[0]] + t[1..];
        assert multiset(s) == multiset([s[0]]) + multiset(s[1..]);
        assert multiset(t) == multiset([s[0]]) + multiset(t[1..]);
        forall x ensures multiset(s[1..])[x] == multiset(t[1..])[x] {
          assert multiset(s)[x] == multiset([s[0]])[x] + multiset(s[1..])[x];
          assert multiset(t)[x] == multiset([s[0]])[x] + multiset(t[1..])[x];
        }
      }
      SortedUnique(s[1..], t[1..]);
      assert s == [s[0]] + s[1..] && t == [t[0]] + t[1..];
    }
  }

  /**
    After both sorts, an answer holding exactly the requested names (in any
    order, duplicates included) leaves nothing missing and matches every
    requested vehicle once, with its id attached.
   */
  lemma AllRequestedFound(requested: seq<Vehicle>, returned: seq<Account>)
    requires Sorting.SortedBy(requested, VehicleName)
    requires Sorting.SortedBy(returned, AccountNickname)
    requires multiset(Names(requested)) == multiset(Nicknames(returned))
    ensures var r := MergeSorted(requested, returned);
            && r.missing == []
            && |r.matching| == |requested|
            && forall i :: 0 <= i < |requested| ==>
                 r.matching[i].name == requested[i].name && r.matching[i].playerId.Some?
  {
    var s, t := Names(requested), Nicknames(returned);
    assert forall i :: 0 <= i < |s| ==> s[i] == VehicleName(requested[i]);
    assert forall i :: 0 <= i < |t| ==> t[i] == AccountNickname(returned[i]);
    SortedUnique(s, t);
    MergeAllFound(requested, returned);
  }

  /** Different names give different not-found messages. */
  lemma NotFoundInjective(x: string, y: string)
    requires ErrNotFoundName(x) == ErrNotFoundName(y)
    ensures x == y
  {
    assert x == ErrNotFoundName(x)[..|x|];
    assert y == ErrNotFoundName(y)[..|y|];
  }

  /** `name` is in neither output: no matching vehicle has it and no not-found reason names it. */
  ghost predicate Absent(r: Lookup, name: string)
  {
    && (forall v :: v in r.matching ==> v.name != name)
    && (forall p :: p in r.missing ==> p.reason != ErrNotFoundName(name))
  }

  /**
    Once the answer runs out the loop stops: a requested name beyond every
    returned nickname is neither matched nor reported missing.
   */
  lemma {:induction false} MergeDropsLeftovers(requested: seq<Vehicle>, returned: seq<Account>, name: string)
    requires forall a :: a in returned ==> JsText.Less(a.nickname, name)
    ensures Absent(MergeSorted(requested, returned), name)
    decreases |requested| + |returned|
  {
    if |requested| > 0 && |returned| > 0 {
      var v, a := requested[0], returned[0];
      assert a in returned;
      assert forall b :: b in returned[1..] ==> b in returned;
      JsText.LessIrreflexive(name);
      forall u | ErrNotFoundName(u) == ErrNotFoundName(name)
        ensures u == name
      {
        NotFoundInjective(u, name);
      }
      if JsText.Less(v.name, a.nickname) {
        JsText.LessTransitive(v.name, a.nickname, name);
        MergeDropsLeftovers(requested[1..], returned, name);
      } else if JsText.Less(a.nickname, v.name) {
        MergeDropsLeftovers(requested, returned[1..], name);
      } else {
        JsText.LessTrichotomy(v.name, a.nickname);
        MergeDropsLeftovers(requested[1..], returned[1..], name);
      }
    }
  }

  /**
    Symmetrically, once the requested names run out the loop stops: a
    returned nickname beyond every requested name is neither matched nor
    reported missing.
   */
  lemma {:induction false} MergeDropsUnrequested(requested: seq<Vehicle>, returned: seq<Account>, name: string)
    requires forall v :: v in requested ==> JsText.Less(v.name, name)
    ensures Absent(MergeSorted(requested, returned), name)
    decreases |requested| + |returned|
  {
    if |requested| > 0 && |returned| > 0 {
      var v, a := requested[0], returned[0];
      assert v in requested;
      assert forall w :: w in requested[1..] ==> w in requested;
      JsText.LessIrreflexive(name);
      forall u | ErrNotFoundName(u) == ErrNotFoundName(name)
        ensures u == name
      {
        NotFoundInjective(u, name);
      }
      if JsText.Less(v.name, a.nickname) {
        MergeDropsUnrequested(requested[1..], returned, name);
      } else if JsText.Less(a.nickname, v.name) {
        JsText.LessTransitive(a.nickname, v.name, name);
        MergeDropsUnrequested(requested, returned[1..], name);
      } else {
        JsText.LessTrichotomy(v.name, a.nickname);
        MergeDropsUnrequested(requested[1..], returned[1..], name);
      }
    }
  }

  // ---------------------------------------------------------------------
  // searchPlayerId
  // ---------------------------------------------------------------------

  /** The part of an `account/list` answer the lookup reads: `meta.count` and `data`. */
  datatype PlayerList = PlayerList(count: int, data: seq<Account>)

  /** `searchPlayerId(playerName)`: the first search hit's id, or not found when `meta.count` is 0. */
  function SearchPlayerId(playerName: Option<string>, resp: Response<PlayerList>): (out: Outcome<int>)
    requires resp.Ok? && resp.body.count > 0 ==> |resp.body.data| > 0
    ensures playerName.None? ==> out == Rejected(ERR_PLAYER_NAME_EMPTY)
    ensures playerName.Some? && !resp.Ok? ==> out == Rejected(FailureReason(resp))
    ensures out.Resolved? <==> playerName.Some? && resp.Ok? && resp.body.count > 0
    ensures out.Resolved? ==> out.value == resp.body.data[0].accountId
    ensures playerName.Some? && resp.Ok? && resp.body.count <= 0 ==>
              out == Rejected(ErrNotFoundName(playerName.value))
  {
    if playerName.None? then Rejected(ERR_PLAYER_NAME_EMPTY)
    else if !resp.Ok? then Rejected(FailureReason(resp))
    else if resp.body.count > 0 then Resolved(resp.body.data[0].accountId)
    else Rejected(ErrNotFoundName(playerName.value))
  }

  // ---------------------------------------------------------------------
  // searchShipId
  // ---------------------------------------------------------------------

  /** One key of the encyclopedia's `data` object (a ship id, as text) and its `name`. */
  datatype CatalogEntry = CatalogEntry(id: string, name: string)

  datatype ShipMatch = ShipMatch(name: string, id: string, message: string)

  /** `k` is a closest catalog entry, and no later entry is as close. */
  ghost predicate IsLastClosest(catalog: seq<CatalogEntry>, shipName: string, k: int)
  {
    && 0 <= k < |catalog|
    && (forall j :: 0 <= j < |catalog| ==>
          UtilsStats.Lev(catalog[k].name, shipName) <= UtilsStats.Lev(catalog[j].name, shipName))
    && (forall j :: k < j < |catalog| ==>
          UtilsStats.Lev(catalog[k].name, shipName) < UtilsStats.Lev(catalog[j].name, shipName))
  }

  /** Scanning entry `i` after a closest entry `previous` of the first `i` leaves `next` the closest of `i + 1`. */
  lemma ClosestStep(catalog: seq<CatalogEntry>, shipName: string, i: nat, previous: int, next: int)
    requires i < |catalog|
    requires i > 0 ==> IsLastClosest(catalog[..i], shipName, previous)
    requires next == if i == 0 || UtilsStats.Lev(catalog[i].name, shipName) <= UtilsStats.Lev(catalog[previous].name, shipName)
                     then i else previous
    ensures IsLastClosest(catalog[..i + 1], shipName, next)
  {
    var prefix := catalog[..i + 1];
    assert forall j :: 0 <= j < i ==> prefix[j] == catalog[..i][j];
  }

  /**
    What the scan settles with: the first entry whose name is identical,
    with no message; otherwise, for a non-empty catalog, the last entry of
    least edit distance, with a warning; for an empty one, not found.
   */
  ghost predicate ClosestOutcome(catalog: seq<CatalogEntry>, name: string, out: Outcome<ShipMatch>)
  {
    if exists k :: 0 <= k < |catalog| && catalog[k].name == name then
      exists k :: && 0 <= k < |catalog| && catalog[k].name == name
                  && (forall j :: 0 <= j < k ==> catalog[j].name != name)
                  && out == Resolved(ShipMatch(name, catalog[k].id, ""))
    else if |catalog| == 0 then
      out == Rejected(ErrNotFoundName(name))
    else
      exists k :: && IsLastClosest(catalog, name, k)
                  && out == Resolved(ShipMatch(catalog[k].name, catalog[k].id, WARN_NO_EXACT_MATCH_SHIP))
  }

  /** `searchShipId(shipName)`: the input and response checks, then the scan of the catalog. */
  method SearchShipId(shipName: Option<string>, resp: Response<seq<CatalogEntry>>) returns (out: Outcome<ShipMatch>)
    ensures shipName.None? ==> out == Rejected(ERR_SHIP_NAME_EMPTY)
    ensures shipName.Some? && !resp.Ok? ==> out == Rejected(FailureReason(resp))
    ensures shipName.Some? && resp.Ok? ==> ClosestOutcome(resp.body, shipName.value, out)
  {
    if shipName.None? {
      return Rejected(ERR_SHIP_NAME_EMPTY);
    }
    if !resp.Ok? {
      return Rejected(FailureReason(resp));
    }
    out := ScanCatalog(resp.body, shipName.value);
  }

  /**
    The loop over the catalog, in the order its keys are enumerated: an
    identical name returns at once; otherwise the best distance so far is
    replaced by any distance that is not larger.
   */
  method ScanCatalog(jsonData: seq<CatalogEntry>, name: string) returns (out: Outcome<ShipMatch>)
    ensures ClosestOutcome(jsonData, name, out)
  {
    var topResult := 0;
    var topResultDist: int := -1;
    for i := 0 to |jsonData|
      invariant forall j :: 0 <= j < i ==> jsonData[j].name != name
      invariant topResultDist == -1 <==> i == 0
      invariant i > 0 ==> 0 <= topResult < i
      invariant i > 0 ==> (topResultDist == UtilsStats.Lev(jsonData[topResult].name, name)
                           && IsLastClosest(jsonData[..i], name, topResult))
    {
      var actualShipName := jsonData[i].name;
      if name == actualShipName {
        return Resolved(ShipMatch(actualShipName, jsonData[i].id, ""));
      }
      var levDist := UtilsStats.LevenshteinDistance(name, actualShipName);
      ghost var previous := topResult;
      if topResultDist == -1 || levDist <= topResultDist {
        topResultDist := levDist;
        topResult := i;
      }
      ClosestStep(jsonData, name, i, previous, topResult);
    }
    assert jsonData[..|jsonData|] == jsonData;
    if topResultDist != -1 {
      return Resolved(ShipMatch(jsonData[topResult].name, jsonData[topResult].id, WARN_NO_EXACT_MATCH_SHIP));
    }
    return Rejected(ErrNotFoundName(name));
  }

  // ---------------------------------------------------------------------
  // searchShipName
  // ---------------------------------------------------------------------

  /** `searchShipName(shipId)`; the body is `data[shipId].name`, `None` for null. */
  function SearchShipName(shipId: Option<int>, resp: Response<Option<string>>): (out: Outcome<string>)
    ensures shipId.None? ==> out == Rejected(ERR_SHIP_ID_EMPTY)
    ensures shipId.Some? && !resp.Ok? ==> out == Rejected(FailureReason(resp))
    ensures out.Resolved? <==> shipId.Some? && resp.Ok? && resp.body.Some?
    ensures out.Resolved? ==> out.value == resp.body.value
    ensures shipId.Some? && resp.Ok? && resp.body.None? ==> out == Rejected(ErrNotFoundId(shipId.value))
  {
    if shipId.None? then Rejected(ERR_SHIP_ID_EMPTY)
    else if !resp.Ok? then Rejected(FailureReason(resp))
    else match resp.body
      case Some(shipName) => Resolved(shipName)
      case None => Rejected(ErrNotFoundId(shipId.value))
  }

  // ---------------------------------------------------------------------
  // stats
  // ---------------------------------------------------------------------

  /** The `pvp` counters of one ship. */
  datatype PvpStats = PvpStats(
    battles: nat, wins: nat, damageDealt: nat, xp: nat,
    survivedBattles: nat, frags: nat, planesKilled: nat)

  /**
    A `ships/stats` answer: whether `meta.hidden` is non-null, and
    `data[playerId]` (`None` for null) reduced to its first entry's `pvp`.
   */
  datatype StatsBody = StatsBody(hidden: bool, entry: Option<PvpStats>)

  function KdOf(pvp: PvpStats): UtilsStats.Kd
  {
    if pvp.battles - pvp.survivedBattles == 0 then UtilsStats.KdInf
    else UtilsStats.KdRatio(pvp.frags, pvp.battles - pvp.survivedBattles)
  }

  /**
    `stats(playerId, shipId)`: rejects only an undefined player id (the
    second guard tests `playerId` again), then classifies the answer in
    the order hidden, no data, no PvP battles, full record.
   */
  function Stats(playerId: Option<int>, shipId: Option<int>, resp: Response<StatsBody>): (out: Outcome<UtilsStats.StatsValue>)
    ensures playerId.None? ==> out == Rejected(ERR_PLAYER_ID_EMPTY)
    ensures playerId.Some? && !resp.Ok? ==> out == Rejected(FailureReason(resp))
    ensures out != Rejected(ERR_SHIP_ID_EMPTY)
    ensures playerId.Some? && resp.Ok? ==> out.Resolved?
    ensures out.Resolved? ==>
              var body := resp.body;
              && (body.hidden <==> out.value == UtilsStats.Sentinel(MSG_PROFILE_HIDDEN))
              && (!body.hidden && body.entry.None? <==> out.value == UtilsStats.Sentinel(MSG_NO_STATS))
              && (!body.hidden && body.entry.Some? && body.entry.value.battles == 0 <==>
                    out.value == UtilsStats.Sentinel(MSG_FIRST_PVP))
              && (out.value.Record? <==> !body.hidden && body.entry.Some? && body.entry.value.battles != 0)
  {
    if playerId.None? then Rejected(ERR_PLAYER_ID_EMPTY)
    else if !resp.Ok? then Rejected(FailureReason(resp))
    else if resp.body.hidden then Resolved(UtilsStats.Sentinel(MSG_PROFILE_HIDDEN))
    else match resp.body.entry
      case None => Resolved(UtilsStats.Sentinel(MSG_NO_STATS))
      case Some(pvp) =>
        if pvp.battles == 0 then Resolved(UtilsStats.Sentinel(MSG_FIRST_PVP))
        else Resolved(UtilsStats.Record(UtilsStats.StatRecord(
          pvp.battles, pvp.wins, pvp.damageDealt, pvp.xp,
          pvp.survivedBattles, pvp.frags, pvp.planesKilled, KdOf(pvp))))
  }

  /**
    A record's kd is `'inf'` exactly when every battle was survived, and
    otherwise divides the frags by a non-zero number of deaths.
   */
  lemma StatsKdGuard(playerId: Option<int>, shipId: Option<int>, resp: Response<StatsBody>)
    requires Stats(playerId, shipId, resp).Resolved?
    requires Stats(playerId, shipId, resp).value.Record?
    ensures var rec := Stats(playerId, shipId, resp).value.record;
            var pvp := resp.body.entry.value;
            && rec.totalBattles == pvp.battles > 0
            && (rec.kd.KdInf? <==> pvp.battles == pvp.survivedBattles)
            && (rec.kd.KdRatio? ==> rec.kd.deaths == pvp.battles - pvp.survivedBattles != 0
                                    && rec.kd.frags == pvp.frags)
  {
  }
}
