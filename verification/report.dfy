/**
  What both monitors do with a settled lookup chain and, once every player
  is processed, with the two team lists: each team's blocks are sorted with
  `caseInsensitiveCompare`, the team's header is put in front, the friendly
  team comes first, and the result is packed greedily into payloads of
  bounded length, each sent behind a prefix.
 */
module TeamReport {
  import JsText
  import Sorting
  import UtilsStats
  import WgApi
  import Packer

  datatype Team = Friendly | Enemy | Nowhere

  /** Relation 0 (yourself) and 1 are friendly, 2 is enemy; anything else has no team. */
  function TeamOf(relation: int): Team
  {
    if relation == 0 || relation == 1 then Friendly
    else if relation == 2 then Enemy
    else Nowhere
  }

  /** How a player's promise chain settles: every lookup resolved, or the first rejection. */
  datatype ChainResult = Success(stats: UtilsStats.StatsValue, shipName: string) | Failure(reason: string)

  /** One player's settled chain, with the renderings of its record's floats. */
  datatype Settled = Settled(player: WgApi.Vehicle, result: ChainResult, numbers: UtilsStats.Numbers)

  /**
    The block for a settled chain: `formatStats(stats, player.name, shipName)`
    followed by a newline.
   */
  function SuccessBlock(player: WgApi.Vehicle, shipName: string, stats: UtilsStats.StatsValue,
                        numbers: UtilsStats.Numbers): (b: string)
    ensures var h := UtilsStats.Header(player.name, shipName);
            |h| < |b| && b[..|h|] == h && b[|b| - 1] == '\n'
  {
    UtilsStats.FormatStats(stats, player.name, shipName, numbers) + "\n"
  }

  /** `'' + stats`: a sentinel is its own text, a record object prints as `[object Object]`. */
  function JsString(stats: UtilsStats.StatsValue): string
  {
    match stats
    case Sentinel(text) => text
    case Record(_) => "[object Object]"
  }

  /**
    The block built by `formatStats(player.name, shipName, stats)`, the
    order match_monitor.js uses: the player name lands in the `stats`
    parameter, a string, so the sentinel branch runs with the ship name as
    player and the stats as ship.
   */
  function AsWrittenBlock(player: WgApi.Vehicle, shipName: string, stats: UtilsStats.StatsValue,
                          numbers: UtilsStats.Numbers): (b: string)
    ensures var h := UtilsStats.Header(shipName, JsString(stats));
            |h| < |b| && b[..|h|] == h && b[|h|..] == player.name + "\n"
  {
    var r := UtilsStats.FormatStats(UtilsStats.Sentinel(player.name), shipName, JsString(stats), numbers);
    assert r == r[..|UtilsStats.Header(shipName, JsString(stats))|] + r[|UtilsStats.Header(shipName, JsString(stats))|..];
    r + "\n"
  }

  /** The order in which a callback passes its arguments to `formatStats`. */
  datatype FormatCall =
    | StatsNameShip  // `formatStats(stats, player.name, shipName)`, the declared order
    | NameShipStats  // `formatStats(player.name, shipName, stats)`

  /** The block a settled chain builds with arguments in the order `call`. */
  function Block(call: FormatCall, player: WgApi.Vehicle, shipName: string, stats: UtilsStats.StatsValue,
                 numbers: UtilsStats.Numbers): string
  {
    match call
    case StatsNameShip => SuccessBlock(player, shipName, stats, numbers)
    case NameShipStats => AsWrittenBlock(player, shipName, stats, numbers)
  }

  /**
    What a settled chain pushes onto `team`'s list: a success its block,
    built with arguments in the order `call`, onto its player's team;
    nothing else.
   */
  function Pushed(msgs: seq<string>, team: Team, call: FormatCall, player: WgApi.Vehicle, result: ChainResult,
                  numbers: UtilsStats.Numbers): seq<string>
  {
    if result.Success? && TeamOf(player.relation) == team then
      msgs + [Block(call, player, result.shipName, result.stats, numbers)]
    else msgs
  }

  lemma PushedAppend(msgs: seq<string>, team: Team, call: FormatCall, player: WgApi.Vehicle, result: ChainResult,
                     numbers: UtilsStats.Numbers)
    ensures Pushed(msgs, team, call, player, result, numbers) == msgs + Pushed([], team, call, player, result, numbers)
  {
    assert msgs + [] == msgs;
  }

  /** The lists `f` gives for the elements of `xs`, one after another. */
  function ConcatMap<T>(f: T -> seq<string>, xs: seq<T>): seq<string>
  {
    if xs == [] then [] else f(xs[0]) + ConcatMap(f, xs[1..])
  }

  lemma {:induction false} ConcatMapAppend<T>(f: T -> seq<string>, xs: seq<T>, x: T)
    ensures ConcatMap(f, xs + [x]) == ConcatMap(f, xs) + f(x)
  {
    if xs != [] {
      assert (xs + [x])[0] == xs[0] && (xs + [x])[1..] == xs[1..] + [x];
      ConcatMapAppend(f, xs[1..], x);
    } else {
      assert [] + [x] == [x];
    }
  }

  lemma {:induction false} ConcatMapSound<T>(f: T -> seq<string>, xs: seq<T>, b: string)
    requires b in ConcatMap(f, xs)
    ensures exists k :: 0 <= k < |xs| && b in f(xs[k])
  {
    if b !in f(xs[0]) {
      ConcatMapSound(f, xs[1..], b);
      var k :| 0 <= k < |xs[1..]| && b in f(xs[1..][k]);
      assert xs[k + 1] == xs[1..][k];
    }
  }

  lemma {:induction false} ConcatMapComplete<T>(f: T -> seq<string>, xs: seq<T>, k: nat, b: string)
    requires k < |xs| && b in f(xs[k])
    ensures b in ConcatMap(f, xs)
  {
    if k > 0 {
      assert xs[1..][k - 1] == xs[k];
      ConcatMapComplete(f, xs[1..], k - 1, b);
    }
  }

  /** What one settled chain pushes onto `team`'s list, on its own. */
  function Contribution(team: Team, call: FormatCall): Settled -> seq<string>
  {
    (e: Settled) => Pushed([], team, call, e.player, e.result, e.numbers)
  }

  /** The blocks the successes among `events` push onto `team`'s list, in settling order. */
  function TeamBlocks(team: Team, call: FormatCall, events: seq<Settled>): seq<string>
  {
    ConcatMap(Contribution(team, call), events)
  }

  /** One more settled chain adds its block, if any, at the end. */
  lemma TeamBlocksAppend(team: Team, call: FormatCall, events: seq<Settled>, e: Settled)
    ensures TeamBlocks(team, call, events + [e])
         == TeamBlocks(team, call, events) + Pushed([], team, call, e.player, e.result, e.numbers)
  {
    ConcatMapAppend(Contribution(team, call), events, e);
  }

  /** `event` is a success on `team` whose block, built with arguments in the order `call`, is `b`. */
  predicate Yields(team: Team, call: FormatCall, event: Settled, b: string)
  {
    && event.result.Success? && TeamOf(event.player.relation) == team
    && b == Block(call, event.player, event.result.shipName, event.result.stats, event.numbers)
  }

  /** Every block on `team`'s list comes from a chain that yields it. */
  lemma TeamBlocksSound(team: Team, call: FormatCall, events: seq<Settled>, b: string)
    requires b in TeamBlocks(team, call, events)
    ensures exists k :: 0 <= k < |events| && Yields(team, call, events[k], b)
  {
    ConcatMapSound(Contribution(team, call), events, b);
    var k :| 0 <= k < |events| && b in Contribution(team, call)(events[k]);
    assert Yields(team, call, events[k], b);
  }

  /** Every chain that yields a block puts it on `team`'s list. */
  lemma TeamBlocksComplete(team: Team, call: FormatCall, events: seq<Settled>, k: nat, b: string)
    requires k < |events| && Yields(team, call, events[k], b)
    ensures b in TeamBlocks(team, call, events)
  {
    var e := events[k];
    assert Contribution(team, call)(e) == [b];
    ConcatMapComplete(Contribution(team, call), events, k, b);
  }

  /** The two team lists and the channel. */
  datatype ReportState = ReportState(friendly: seq<string>, enemy: seq<string>, sent: seq<string>)

  /** `msgs.sort(caseInsensitiveCompare)`, on an array holding the list. */
  method SortTeam(msgs: seq<string>) returns (sorted: seq<string>)
    ensures sorted == Sorting.StableSort(msgs, JsText.Lower)
    ensures forall i, j :: 0 <= i < j < |sorted| ==> UtilsStats.CaseInsensitiveCompare(sorted[i], sorted[j]) <= 0
  {
    var a := new string[|msgs|](i requires 0 <= i < |msgs| => msgs[i]);
    assert a[..] == msgs;
    Sorting.SortByKey(a, JsText.Lower);
    sorted := a[..];
    UtilsStats.SortedByLowerIsComparatorOrder(sorted);
  }

  /** What each payload becomes on the channel. */
  function Prefixed(prefix: string, payloads: seq<string>): seq<string>
  {
    if payloads == [] then [] else [prefix + payloads[0]] + Prefixed(prefix, payloads[1..])
  }

  /** Behind the prefix, every message carries a non-empty payload within the limit. */
  lemma {:induction false} PrefixedBound(prefix: string, payloads: seq<string>, limit: nat)
    requires forall p :: p in payloads ==> 0 < |p| <= limit
    ensures |Prefixed(prefix, payloads)| == |payloads|
    ensures forall m :: m in Prefixed(prefix, payloads) ==> 0 < |m| - |prefix| <= limit
  {
    if payloads != [] {
      assert forall p :: p in payloads[1..] ==> p in payloads;
      PrefixedBound(prefix, payloads[1..], limit);
    }
  }

  /** A permutation keeps every element within the limit, and so does its inverse. */
  lemma FitsAfterPermutation(s: seq<string>, t: seq<string>, limit: nat)
    requires multiset(s) == multiset(t)
    ensures Packer.AllFit(s, limit) <==> Packer.AllFit(t, limit)
  {
    forall b | b in s
      ensures b in t
    {
      assert b in multiset(s);
    }
    forall b | b in t
      ensures b in s
    {
      assert b in multiset(t);
    }
  }

  /**
    `newFriendly` and `newEnemy` are `friendly` and `enemy` sorted with
    `caseInsensitiveCompare`, each behind its header.
   */
  ghost predicate Assembled(friendly: seq<string>, enemy: seq<string>,
                            friendlyHeader: string, enemyHeader: string,
                            newFriendly: seq<string>, newEnemy: seq<string>)
  {
    && |newFriendly| == |friendly| + 1 && newFriendly[0] == friendlyHeader
    && |newEnemy| == |enemy| + 1 && newEnemy[0] == enemyHeader
    && Sorting.SortedBy(newFriendly[1..], JsText.Lower)
    && Sorting.SortedBy(newEnemy[1..], JsText.Lower)
    && multiset(newFriendly[1..]) == multiset(friendly)
    && multiset(newEnemy[1..]) == multiset(enemy)
  }

  /** A team's list as the completion block leaves it: the header, then the blocks sorted. */
  function Headed(header: string, msgs: seq<string>): seq<string>
  {
    [header] + Sorting.StableSort(msgs, JsText.Lower)
  }

  /**
    The state the completion block leaves on lists `f0`, `e0` and channel
    `s0`: both teams sorted behind their headers, and the greedy packing of
    the blocks sent behind `prefix`. When some block exceeds the limit the
    loop never ends: only the packing of the blocks in front of the first
    oversized one is recorded; the messages that follow without end are not
    (`Packer.OversizedBlockStalls`).
   */
  function Report(f0: seq<string>, e0: seq<string>, s0: seq<string>,
                  friendlyHeader: string, enemyHeader: string, prefix: string, limit: nat): ReportState
  {
    var f1, e1 := Headed(friendlyHeader, f0), Headed(enemyHeader, e0);
    ReportState(f1, e1, s0 + Prefixed(prefix, Packer.Greedy("", Packer.Fitting(f1 + e1, limit), limit)))
  }

  /** The completion block would loop forever on these lists: some block exceeds the limit. */
  predicate Stalls(friendly: seq<string>, enemy: seq<string>, limit: nat)
  {
    Packer.Oversized(friendly, limit) || Packer.Oversized(enemy, limit)
  }

  /** The report holds both teams sorted and complete behind their headers. */
  lemma ReportAssembled(f0: seq<string>, e0: seq<string>, s0: seq<string>,
                        friendlyHeader: string, enemyHeader: string, prefix: string, limit: nat)
    ensures var r := Report(f0, e0, s0, friendlyHeader, enemyHeader, prefix, limit);
            Assembled(f0, e0, friendlyHeader, enemyHeader, r.friendly, r.enemy)
  {
    var r := Report(f0, e0, s0, friendlyHeader, enemyHeader, prefix, limit);
    var fs, es := Sorting.StableSort(f0, JsText.Lower), Sorting.StableSort(e0, JsText.Lower);
    Sorting.StableSortSorted(f0, JsText.Lower);
    Sorting.StableSortSorted(e0, JsText.Lower);
    assert r.friendly[1..] == fs && r.enemy[1..] == es;
    assert |fs| == |multiset(fs)| == |multiset(f0)| == |f0|;
    assert |es| == |multiset(es)| == |multiset(e0)| == |e0|;
  }

  /** The report only appends to the channel. */
  lemma ReportExtends(f0: seq<string>, e0: seq<string>, s0: seq<string>,
                      friendlyHeader: string, enemyHeader: string, prefix: string, limit: nat)
    ensures s0 <= Report(f0, e0, s0, friendlyHeader, enemyHeader, prefix, limit).sent
  {
  }

  /** Behind its header, a team's list holds exactly the blocks it held before, ordered. */
  lemma HeadedMembers(header: string, msgs: seq<string>, b: string)
    ensures |Headed(header, msgs)| == |msgs| + 1 && Headed(header, msgs)[0] == header
    ensures Sorting.SortedBy(Headed(header, msgs)[1..], JsText.Lower)
    ensures b in Headed(header, msgs)[1..] <==> b in msgs
  {
    var sorted := Sorting.StableSort(msgs, JsText.Lower);
    Sorting.StableSortSorted(msgs, JsText.Lower);
    assert Headed(header, msgs)[1..] == sorted;
    assert |sorted| == |multiset(sorted)| == |multiset(msgs)| == |msgs|;
    assert b in sorted <==> b in multiset(sorted);
  }

  /**
    The report keeps what was on the channel and adds only messages whose
    payload, behind the prefix, is non-empty and within the limit; with
    headers within the limit, it sends every block (the packing loop ends)
    exactly when no block of the unsorted lists exceeds the limit.
   */
  lemma ReportSends(f0: seq<string>, e0: seq<string>, s0: seq<string>,
                    friendlyHeader: string, enemyHeader: string, prefix: string, limit: nat)
    requires |friendlyHeader| <= limit && |enemyHeader| <= limit
    ensures var r := Report(f0, e0, s0, friendlyHeader, enemyHeader, prefix, limit);
            && s0 <= r.sent
            && (forall m :: m in r.sent[|s0|..] ==> 0 < |m| - |prefix| <= limit)
            && (Packer.AllFit(r.friendly + r.enemy, limit) <==> !Stalls(f0, e0, limit))
  {
    var r := Report(f0, e0, s0, friendlyHeader, enemyHeader, prefix, limit);
    var fs, es := Sorting.StableSort(f0, JsText.Lower), Sorting.StableSort(e0, JsText.Lower);
    var fitting := Packer.Fitting(r.friendly + r.enemy, limit);
    var payloads := Packer.Greedy("", fitting, limit);
    Packer.GreedyBounded("", fitting, limit);
    PrefixedBound(prefix, payloads, limit);
    assert r.sent[|s0|..] == Prefixed(prefix, payloads);
    FitsAfterPermutation(fs, f0, limit);
    FitsAfterPermutation(es, e0, limit);
    Packer.FitsConcat(r.friendly, r.enemy, limit);
    Packer.FitsConcat([friendlyHeader], fs, limit);
    Packer.FitsConcat([enemyHeader], es, limit);
    Packer.OversizedIff(f0, limit);
    Packer.OversizedIff(e0, limit);
  }

  /**
    The completion block on lists `f0`, `e0` and channel `s0`: sorts both
    teams, puts each header in front and sends the packed payloads. A block
    longer than `limit` would make the packing loop run forever; that
    outcome is reported in `stalled`.
   */
  method Complete(f0: seq<string>, e0: seq<string>, s0: seq<string>,
                  friendlyHeader: string, enemyHeader: string, prefix: string, limit: nat)
    returns (f1: seq<string>, e1: seq<string>, s1: seq<string>, ghost stalled: bool)
    requires |friendlyHeader| <= limit && |enemyHeader| <= limit
    ensures ReportState(f1, e1, s1) == Report(f0, e0, s0, friendlyHeader, enemyHeader, prefix, limit)
    ensures stalled == Stalls(f0, e0, limit)
  {
    var fs := SortTeam(f0);
    var es := SortTeam(e0);
    f1, e1 := [friendlyHeader] + fs, [enemyHeader] + es;
    var blocks := f1 + e1;
    var fitting := Packer.Fitting(blocks, limit);
    var payloads := Packer.Pack(fitting, limit);
    s1 := s0 + Prefixed(prefix, payloads);
    ReportSends(f0, e0, s0, friendlyHeader, enemyHeader, prefix, limit);
    stalled := !Packer.AllFit(blocks, limit);
  }
}
