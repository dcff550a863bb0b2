/**
  `processMatch` of match_monitor.js. One call shares a counter, two team
  lists and an error flag among callbacks that settle in an order the model
  does not fix: the callback of `searchMultiplePlayerIds` (which routes the
  missing players) and one callback per matching player's lookup chain.
  The session class holds that shared state; its methods are the callbacks.
  The channel is the `sent` list of messages, in sending order.
 */
module MatchMonitor {
  import JsText
  import Sorting
  import UtilsStats
  import WgApi
  import Packer
  import TeamReport

  const DISCORD_MAX_CHAR := 2000
  const LENGTH_MSG_COMPACT_PREFIX := 2
  /** The packing limit: room is left for the compact prefix. */
  const PAYLOAD_LIMIT := DISCORD_MAX_CHAR - LENGTH_MSG_COMPACT_PREFIX

  const MSG_MATCH_DETECTED := "Detected a match! Loading player stats..."
  const MSG_TEAM_ENEMY := "\n=========\nEnemy Team\n=========\n\n"
  const MSG_TEAM_FRIENDLY := "==========\nFriendly Team\n==========\n\n"
  const ERR_COMPACT_MSG_FORMAT_NOT_SET := "COMPACT_MSG_FORMAT was not set!"

  /** The text of `ERR_DURING_PROCESS_MATCH_MSG` before its `%s`. */
  const ERR_DURING_PROCESS_MATCH_MSG_HEAD :=
    "**ERROR**: Error while processing match. Additional errors will not be sent here " +
    "and will only be logged in the bot console. Some stats may be missing:\n"

  /** `ERR_DURING_PROCESS_MATCH_MSG` filled in with a reason. */
  function ErrDuringProcessMatchMsg(reason: string): string
  {
    ERR_DURING_PROCESS_MATCH_MSG_HEAD + reason + "\n\n"
  }

  /** `MSG_UNKNOWN_TEAM` filled in with a reason. */
  function UnknownTeamMsg(reason: string): string
  {
    "*Unknown Team*: " + reason + "\n"
  }

  /** What reading `COMPACT_MSG_FORMAT` at load time gives: a prefix, or a thrown error. */
  datatype PrefixChoice = Prefix(text: string) | Throws(error: string)

  /**
    The prefix `initReplayMonitor` chooses from `COMPACT_MSG_FORMAT` (`None`
    when the variable is unset): `'.\n'` for `'true'`, nothing for `'false'`,
    and any other value throws.
   */
  function CompactPrefix(setting: WgApi.Option<string>): (r: PrefixChoice)
    ensures r == Prefix(".\n") <==> setting == WgApi.Some("true")
    ensures r == Prefix("") <==> setting == WgApi.Some("false")
    ensures r.Throws? <==> setting != WgApi.Some("true") && setting != WgApi.Some("false")
    ensures r.Throws? ==> r.error == ERR_COMPACT_MSG_FORMAT_NOT_SET
    ensures r.Prefix? ==> |r.text| <= LENGTH_MSG_COMPACT_PREFIX
  {
    if setting == WgApi.Some("true") then Prefix(".\n")
    else if setting != WgApi.Some("false") || setting.None? || setting == WgApi.Some("") then
      Throws(ERR_COMPACT_MSG_FORMAT_NOT_SET)
    else Prefix("")
  }

  // ---------------------------------------------------------------------
  // Routing
  // ---------------------------------------------------------------------

  /** A missing player without a team is put at the end of the enemy list. */
  function MissingTeam(p: WgApi.MissingPlayer): TeamReport.Team
  {
    if TeamReport.TeamOf(p.relation) == TeamReport.Friendly then TeamReport.Friendly else TeamReport.Enemy
  }

  function MissingBlock(p: WgApi.MissingPlayer): string
  {
    if TeamReport.TeamOf(p.relation) == TeamReport.Nowhere then UnknownTeamMsg(p.reason)
    else ErrDuringProcessMatchMsg(p.reason)
  }

  /** The blocks the loop over `missing` pushes onto `team`'s list, in order. */
  function MissingBlocks(missing: seq<WgApi.MissingPlayer>, team: TeamReport.Team): seq<string>
  {
    if missing == [] then []
    else
      var last := missing[|missing| - 1];
      MissingBlocks(missing[..|missing| - 1], team) +
      (if MissingTeam(last) == team then [MissingBlock(last)] else [])
  }

  /** One more turn of the loop over `missing`. */
  lemma MissingBlocksStep(missing: seq<WgApi.MissingPlayer>, i: nat, team: TeamReport.Team)
    requires i < |missing|
    ensures MissingBlocks(missing[..i + 1], team) ==
            MissingBlocks(missing[..i], team) +
            (if MissingTeam(missing[i]) == team then [MissingBlock(missing[i])] else [])
  {
    assert missing[..i + 1][..i] == missing[..i];
  }

  /** Every missing player lands in exactly one of the two lists. */
  lemma {:induction false} MissingRoutedOnce(missing: seq<WgApi.MissingPlayer>)
    ensures |MissingBlocks(missing, TeamReport.Friendly)| + |MissingBlocks(missing, TeamReport.Enemy)| == |missing|
    ensures MissingBlocks(missing, TeamReport.Nowhere) == []
  {
    if missing != [] {
      MissingRoutedOnce(missing[..|missing| - 1]);
    }
  }

  /**
    A team's list holds exactly the blocks of the missing players routed to
    it: relation 0/1 friendly with the error text, relation 2 enemy with the
    error text, anything else enemy with the unknown-team text.
   */
  lemma {:induction false} MissingBlocksContents(missing: seq<WgApi.MissingPlayer>, team: TeamReport.Team, b: string)
    ensures b in MissingBlocks(missing, team) <==>
            exists p :: p in missing && MissingTeam(p) == team && b == MissingBlock(p)
  {
    if missing != [] {
      var init, last := missing[..|missing| - 1], missing[|missing| - 1];
      MissingBlocksContents(init, team, b);
      assert missing == init + [last];
      if exists p :: p in missing && MissingTeam(p) == team && b == MissingBlock(p) {
        var p :| p in missing && MissingTeam(p) == team && b == MissingBlock(p);
        if p != last {
          assert p in init;
        }
      }
    }
  }

  // ---------------------------------------------------------------------
  // One matching player's chain
  // ---------------------------------------------------------------------

  /**
    `stats(playerId, shipId)` then `searchShipName(shipId)`; a rejection of
    `stats` skips the ship-name lookup and goes straight to the catch.
   */
  function MatchChain(player: WgApi.Vehicle, statsResp: WgApi.Response<WgApi.StatsBody>,
                      shipResp: WgApi.Response<WgApi.Option<string>>): (r: TeamReport.ChainResult)
    ensures var st := WgApi.Stats(player.playerId, WgApi.Some(player.shipId), statsResp);
            var sn := WgApi.SearchShipName(WgApi.Some(player.shipId), shipResp);
            && (r.Success? <==> st.Resolved? && sn.Resolved?)
            && (r.Success? ==> r.stats == st.value && r.shipName == sn.value)
            && (st.Rejected? ==> r == TeamReport.Failure(st.reason))
            && (st.Resolved? && sn.Rejected? ==> r == TeamReport.Failure(sn.reason))
  {
    match WgApi.Stats(player.playerId, WgApi.Some(player.shipId), statsResp)
    case Rejected(reason) => TeamReport.Failure(reason)
    case Resolved(stats) =>
      match WgApi.SearchShipName(WgApi.Some(player.shipId), shipResp)
      case Rejected(reason) => TeamReport.Failure(reason)
      case Resolved(shipName) => TeamReport.Success(stats, shipName)
  }

  /**
    The loop over `missing`: each player's block is pushed onto the list of
    its team and the player is counted.
   */
  method RouteMissing(missing: seq<WgApi.MissingPlayer>, friendlyMsg: seq<string>, enemyMsg: seq<string>,
                      processedPlayers: nat)
    returns (friendly: seq<string>, enemy: seq<string>, processed: nat)
    ensures friendly == friendlyMsg + MissingBlocks(missing, TeamReport.Friendly)
    ensures enemy == enemyMsg + MissingBlocks(missing, TeamReport.Enemy)
    ensures processed == processedPlayers + |missing|
  {
    friendly, enemy, processed := friendlyMsg, enemyMsg, processedPlayers;
    for missingIndex := 0 to |missing|
      invariant friendly == friendlyMsg + MissingBlocks(missing[..missingIndex], TeamReport.Friendly)
      invariant enemy == enemyMsg + MissingBlocks(missing[..missingIndex], TeamReport.Enemy)
      invariant processed == processedPlayers + missingIndex
    {
      var player := missing[missingIndex];
      MissingBlocksStep(missing, missingIndex, TeamReport.Friendly);
      MissingBlocksStep(missing, missingIndex, TeamReport.Enemy);
      if player.relation == 0 || player.relation == 1 {
        assert MissingTeam(player) == TeamReport.Friendly;
        friendly := friendly + [ErrDuringProcessMatchMsg(player.reason)];
      } else if player.relation == 2 {
        assert MissingTeam(player) == TeamReport.Enemy && MissingBlock(player) == ErrDuringProcessMatchMsg(player.reason);
        enemy := enemy + [ErrDuringProcessMatchMsg(player.reason)];
      } else {
        assert MissingTeam(player) == TeamReport.Enemy && MissingBlock(player) == UnknownTeamMsg(player.reason);
        enemy := enemy + [UnknownTeamMsg(player.reason)];
      }
      processed := processed + 1;
    }
    assert missing[..|missing|] == missing;
  }

  /** The as-written block never shows the statistics: roles swapped, player name last. */
  lemma AsWrittenSwapsRoles(player: WgApi.Vehicle, shipName: string, stats: UtilsStats.StatsValue,
                            numbers: UtilsStats.Numbers)
    ensures TeamReport.AsWrittenBlock(player, shipName, stats, numbers) ==
            UtilsStats.Header(shipName, TeamReport.JsString(stats)) + player.name + "\n"
  {
    var h := UtilsStats.Header(shipName, TeamReport.JsString(stats));
    var b := TeamReport.AsWrittenBlock(player, shipName, stats, numbers);
    assert b == b[..|h|] + b[|h|..];
  }

  /**
    Whenever the player and ship names start differently, the as-written
    block is not the intended one: its third character is the ship's.
   */
  lemma AsWrittenDiffers(player: WgApi.Vehicle, shipName: string, stats: UtilsStats.StatsValue,
                         numbers: UtilsStats.Numbers)
    requires |player.name| > 0 && |shipName| > 0 && player.name[0] != shipName[0]
    ensures TeamReport.AsWrittenBlock(player, shipName, stats, numbers) != TeamReport.SuccessBlock(player, shipName, stats, numbers)
  {
    var asWritten := TeamReport.AsWrittenBlock(player, shipName, stats, numbers);
    var intended := TeamReport.SuccessBlock(player, shipName, stats, numbers);
    AsWrittenSwapsRoles(player, shipName, stats, numbers);
    HeaderThirdChar(shipName, TeamReport.JsString(stats), player.name + "\n");
    HeaderThirdChar(player.name, shipName, intended[|UtilsStats.Header(player.name, shipName)|..]);
    assert intended == intended[..|UtilsStats.Header(player.name, shipName)|] +
                       intended[|UtilsStats.Header(player.name, shipName)|..];
    assert asWritten[2] != intended[2];
  }

  /** The third character of a block is the first of the name in its header. */
  lemma HeaderThirdChar(playerName: string, shipName: string, rest: string)
    requires |playerName| > 0
    ensures |UtilsStats.Header(playerName, shipName) + rest| > 2
    ensures (UtilsStats.Header(playerName, shipName) + rest)[2] == playerName[0]
  {
  }

  /** Alice on the Yamato: her record is replaced by `[object Object]` under a swapped header. */
  lemma FormatStatsArgumentsSwapped(rec: UtilsStats.StatRecord, numbers: UtilsStats.Numbers)
    ensures var player := WgApi.Vehicle("Alice", 1, 0, WgApi.Some(7));
            && TeamReport.AsWrittenBlock(player, "Yamato", UtilsStats.Record(rec), numbers) ==
               "**Yamato**: *[object Object]*\nAlice\n"
            && TeamReport.AsWrittenBlock(player, "Yamato", UtilsStats.Record(rec), numbers) !=
               TeamReport.SuccessBlock(player, "Yamato", UtilsStats.Record(rec), numbers)
  {
    var player := WgApi.Vehicle("Alice", 1, 0, WgApi.Some(7));
    AsWrittenSwapsRoles(player, "Yamato", UtilsStats.Record(rec), numbers);
    AliceOnYamatoText();
    AsWrittenDiffers(player, "Yamato", UtilsStats.Record(rec), numbers);
  }

  /** The swapped header and trailing name of the example, spelled out. */
  lemma AliceOnYamatoText()
    ensures UtilsStats.Header("Yamato", "[object Object]") + "Alice" + "\n" ==
            "**Yamato**: *[object Object]*\nAlice\n"
  {
    assert UtilsStats.Header("Yamato", "[object Object]") == "**Yamato**: *[object Object]*\n";
  }

  /** What a settled chain sends to the channel before the completion check. */
  function Announcement(error: bool, result: TeamReport.ChainResult): seq<string>
  {
    if result.Failure? && !error then [ErrDuringProcessMatchMsg(result.reason)] else []
  }

  /** The reason of the first failed chain among `events`, if any. */
  function FirstFailure(events: seq<TeamReport.Settled>): WgApi.Option<string>
  {
    if events == [] then WgApi.None
    else if events[0].result.Failure? then WgApi.Some(events[0].result.reason)
    else FirstFailure(events[1..])
  }

  /** The first failure of `a + b` is that of `a`, or else that of `b`. */
  lemma {:induction false} FirstFailureConcat(a: seq<TeamReport.Settled>, b: seq<TeamReport.Settled>)
    ensures FirstFailure(a + b) == if FirstFailure(a).Some? then FirstFailure(a) else FirstFailure(b)
  {
    if a == [] {
      assert a + b == b;
    } else {
      assert (a + b)[0] == a[0] && (a + b)[1..] == a[1..] + b;
      FirstFailureConcat(a[1..], b);
    }
  }

  /** `FirstFailure` finds nothing exactly when every chain succeeded. */
  lemma {:induction false} FirstFailureNone(events: seq<TeamReport.Settled>)
    ensures FirstFailure(events).None? <==> forall k :: 0 <= k < |events| ==> events[k].result.Success?
  {
    if events != [] {
      FirstFailureNone(events[1..]);
      assert forall k :: 1 <= k < |events| ==> events[k] == events[1..][k - 1];
    }
  }

  /** What `FirstFailure` finds is the reason of a failed chain with only successes before it. */
  lemma {:induction false} FirstFailureFirst(events: seq<TeamReport.Settled>)
    requires FirstFailure(events).Some?
    ensures exists k :: && 0 <= k < |events| && events[k].result == TeamReport.Failure(FirstFailure(events).value)
                        && forall j :: 0 <= j < k ==> events[j].result.Success?
  {
    if !events[0].result.Failure? {
      var rest := events[1..];
      FirstFailureFirst(rest);
      var k :| && 0 <= k < |rest| && rest[k].result == TeamReport.Failure(FirstFailure(rest).value)
               && forall j :: 0 <= j < k ==> rest[j].result.Success?;
      assert events[k + 1] == rest[k];
      assert forall j :: 1 <= j < k + 1 ==> events[j] == rest[j - 1];
    }
  }

  /** What `events` send to the channel: the first failure's message, unless an error was already sent. */
  function Announcements(error: bool, events: seq<TeamReport.Settled>): seq<string>
  {
    if !error && FirstFailure(events).Some? then [ErrDuringProcessMatchMsg(FirstFailure(events).value)] else []
  }

  /** One settled chain on `state`, with the error flag as it stood before it. */
  function AfterOne(state: TeamReport.ReportState, error: bool, event: TeamReport.Settled): TeamReport.ReportState
  {
    TeamReport.ReportState(
      TeamReport.Pushed(state.friendly, TeamReport.Friendly, TeamReport.NameShipStats,
                        event.player, event.result, event.numbers),
      TeamReport.Pushed(state.enemy, TeamReport.Enemy, TeamReport.NameShipStats,
                        event.player, event.result, event.numbers),
      state.sent + Announcement(error, event.result))
  }

  /**
    The lists and the channel once `events` have settled on `state` with no
    completion block among them: each team's list gains the blocks of its
    successes in settling order, and the channel gains at most one message,
    the first failure's, and only when no error was sent before.
   */
  function AfterEach(state: TeamReport.ReportState, error: bool, events: seq<TeamReport.Settled>): TeamReport.ReportState
  {
    TeamReport.ReportState(
      state.friendly + TeamReport.TeamBlocks(TeamReport.Friendly, TeamReport.NameShipStats, events),
      state.enemy + TeamReport.TeamBlocks(TeamReport.Enemy, TeamReport.NameShipStats, events),
      state.sent + Announcements(error, events))
  }

  lemma AfterNone(state: TeamReport.ReportState, error: bool)
    ensures AfterEach(state, error, []) == state
  {
    assert state.friendly + [] == state.friendly && state.enemy + [] == state.enemy && state.sent + [] == state.sent;
  }

  /** The callback's effect of one more chain agrees with the closed form. */
  lemma AfterEachStep(state: TeamReport.ReportState, error: bool, events: seq<TeamReport.Settled>,
                      event: TeamReport.Settled)
    ensures AfterEach(state, error, events + [event])
         == AfterOne(AfterEach(state, error, events), error || FirstFailure(events).Some?, event)
  {
    var e := event;
    var before := AfterEach(state, error, events);
    var after := AfterOne(before, error || FirstFailure(events).Some?, event);
    var whole := AfterEach(state, error, events + [event]);
    assert whole.friendly == after.friendly by {
      TeamReport.TeamBlocksAppend(TeamReport.Friendly, TeamReport.NameShipStats, events, e);
      TeamReport.PushedAppend(before.friendly, TeamReport.Friendly, TeamReport.NameShipStats, e.player, e.result, e.numbers);
    }
    assert whole.enemy == after.enemy by {
      TeamReport.TeamBlocksAppend(TeamReport.Enemy, TeamReport.NameShipStats, events, e);
      TeamReport.PushedAppend(before.enemy, TeamReport.Enemy, TeamReport.NameShipStats, e.player, e.result, e.numbers);
    }
    assert whole.sent == after.sent by {
      FirstFailureConcat(events, [event]);
      assert FirstFailure([event]) == if event.result.Failure? then WgApi.Some(event.result.reason) else WgApi.None;
    }
  }

  /** The completion block on `state`: both teams sorted behind their headers, the payloads sent. */
  function Completed(state: TeamReport.ReportState, prefix: string): TeamReport.ReportState
  {
    TeamReport.Report(state.friendly, state.enemy, state.sent, MSG_TEAM_FRIENDLY, MSG_TEAM_ENEMY, prefix,
                      PAYLOAD_LIMIT)
  }

  /** The completion block on `state` would loop forever. */
  predicate StallsOn(state: TeamReport.ReportState)
  {
    TeamReport.Stalls(state.friendly, state.enemy, PAYLOAD_LIMIT)
  }

  /** The counter, standing at `processed`, reaches `total` within `n` more chains. */
  predicate CompletesWithin(total: nat, processed: nat, n: nat)
  {
    processed < total <= processed + n
  }

  /**
    What `events` leave, settling one after another on a session whose
    counter stood at `processed` of `total`, with error flag `error`, lists
    and channel `start`. If the counter reaches `total` at the k-th event,
    the completion block runs on what the first k events left and the later
    events settle on its result; otherwise the events only settle.
   */
  function SettledState(total: nat, processed: nat, error: bool, prefix: string,
                        start: TeamReport.ReportState, events: seq<TeamReport.Settled>): TeamReport.ReportState
  {
    if CompletesWithin(total, processed, |events|) then
      var k := total - processed;
      AfterEach(Completed(AfterEach(start, error, events[..k]), prefix),
                error || FirstFailure(events[..k]).Some?, events[k..])
    else AfterEach(start, error, events)
  }

  /** Whether the completion block, if `events` make it run, loops forever. */
  predicate SettledStalls(total: nat, processed: nat, error: bool, start: TeamReport.ReportState, stalled: bool,
                          events: seq<TeamReport.Settled>)
  {
    if CompletesWithin(total, processed, |events|) then
      StallsOn(AfterEach(start, error, events[..total - processed]))
    else stalled
  }

  /** Before the completion block, one more chain settles on the state the earlier ones left. */
  lemma SettleBefore(start: TeamReport.ReportState, error: bool, events: seq<TeamReport.Settled>, j: nat)
    requires j < |events|
    ensures AfterEach(start, error, events[..j + 1])
         == AfterOne(AfterEach(start, error, events[..j]), error || FirstFailure(events[..j]).Some?, events[j])
  {
    assert events[..j + 1] == events[..j] + [events[j]];
    AfterEachStep(start, error, events[..j], events[j]);
  }

  /**
    After the completion block ran at the k-th event, one more chain settles
    on what the block left, with the error flag as all earlier events left it.
   */
  lemma SettleAfter(report: TeamReport.ReportState, error: bool, events: seq<TeamReport.Settled>, k: nat, j: nat)
    requires k <= j < |events|
    ensures AfterEach(report, error || FirstFailure(events[..k]).Some?, events[k..j + 1])
         == AfterOne(AfterEach(report, error || FirstFailure(events[..k]).Some?, events[k..j]),
                     error || FirstFailure(events[..j]).Some?, events[j])
  {
    assert events[..j] == events[..k] + events[k..j];
    assert events[k..j + 1] == events[k..j] + [events[j]];
    FirstFailureConcat(events[..k], events[k..j]);
    AfterEachStep(report, error || FirstFailure(events[..k]).Some?, events[k..j], events[j]);
  }

  /** The first failure among `events[..k + 1]` is found there exactly when one is among the first k or it is the k-th. */
  lemma FirstFailureStep(events: seq<TeamReport.Settled>, k: nat)
    requires k < |events|
    ensures FirstFailure(events[..k + 1]).Some? <==> FirstFailure(events[..k]).Some? || events[k].result.Failure?
  {
    assert events[..k + 1] == events[..k] + [events[k]];
    FirstFailureConcat(events[..k], [events[k]]);
  }

  /**
    One more chain settling agrees with `SettledState`: it settles on what
    the earlier ones left, and the completion block runs right after it when
    it brings the counter to `total`.
   */
  lemma SettleStep(total: nat, processed: nat, error: bool, prefix: string, start: TeamReport.ReportState,
                   stalled: bool, events: seq<TeamReport.Settled>, k: nat)
    requires k < |events|
    ensures var before := SettledState(total, processed, error, prefix, start, events[..k]);
            var after := AfterOne(before, error || FirstFailure(events[..k]).Some?, events[k]);
            && SettledState(total, processed, error, prefix, start, events[..k + 1])
               == (if processed + k + 1 == total then Completed(after, prefix) else after)
            && SettledStalls(total, processed, error, start, stalled, events[..k + 1])
               == (if processed + k + 1 == total then StallsOn(after)
                   else SettledStalls(total, processed, error, start, stalled, events[..k]))
  {
    if CompletesWithin(total, processed, k) {
      SettleStepLater(total, processed, error, prefix, start, stalled, events, k);
    } else if processed + k + 1 == total {
      SettleStepCompleting(total, processed, error, prefix, start, stalled, events, k);
    } else {
      SettleStepQuiet(total, processed, error, prefix, start, stalled, events, k);
    }
  }

  /** `SettleStep` for a chain that settles after the completion block ran. */
  lemma SettleStepLater(total: nat, processed: nat, error: bool, prefix: string, start: TeamReport.ReportState,
                        stalled: bool, events: seq<TeamReport.Settled>, k: nat)
    requires k < |events| && CompletesWithin(total, processed, k)
    ensures SettledState(total, processed, error, prefix, start, events[..k + 1])
         == AfterOne(SettledState(total, processed, error, prefix, start, events[..k]),
                     error || FirstFailure(events[..k]).Some?, events[k])
    ensures SettledStalls(total, processed, error, start, stalled, events[..k + 1])
         == SettledStalls(total, processed, error, start, stalled, events[..k])
  {
    var due := total - processed;
    var upto, upto1 := events[..k], events[..k + 1];
    assert upto1[..due] == upto[..due] == events[..due];
    assert upto[due..] == events[due..k] && upto1[due..] == events[due..k + 1];
    SettleAfter(Completed(AfterEach(start, error, events[..due]), prefix), error, events, due, k);
  }

  /** `SettleStep` for the chain that brings the counter to `total`. */
  lemma SettleStepCompleting(total: nat, processed: nat, error: bool, prefix: string, start: TeamReport.ReportState,
                             stalled: bool, events: seq<TeamReport.Settled>, k: nat)
    requires k < |events| && processed + k + 1 == total
    ensures var after := AfterOne(SettledState(total, processed, error, prefix, start, events[..k]),
                                  error || FirstFailure(events[..k]).Some?, events[k]);
            && SettledState(total, processed, error, prefix, start, events[..k + 1]) == Completed(after, prefix)
            && SettledStalls(total, processed, error, start, stalled, events[..k + 1]) == StallsOn(after)
  {
    var upto1 := events[..k + 1];
    var after := AfterOne(AfterEach(start, error, events[..k]), error || FirstFailure(events[..k]).Some?, events[k]);
    assert SettledState(total, processed, error, prefix, start, events[..k]) == AfterEach(start, error, events[..k]);
    SettleBefore(start, error, events, k);
    assert AfterEach(start, error, upto1) == after;
    assert upto1[..k + 1] == upto1 && upto1[k + 1..] == [];
    AfterNone(Completed(after, prefix), error || FirstFailure(upto1).Some?);
    assert SettledState(total, processed, error, prefix, start, upto1)
        == AfterEach(Completed(after, prefix), error || FirstFailure(upto1).Some?, []);
  }

  /** `SettleStep` for a chain that settles before the counter reaches `total`, or when it never does. */
  lemma SettleStepQuiet(total: nat, processed: nat, error: bool, prefix: string, start: TeamReport.ReportState,
                        stalled: bool, events: seq<TeamReport.Settled>, k: nat)
    requires k < |events| && !CompletesWithin(total, processed, k) && processed + k + 1 != total
    ensures SettledState(total, processed, error, prefix, start, events[..k + 1])
         == AfterOne(SettledState(total, processed, error, prefix, start, events[..k]),
                     error || FirstFailure(events[..k]).Some?, events[k])
    ensures SettledStalls(total, processed, error, start, stalled, events[..k + 1]) == stalled
  {
    SettleBefore(start, error, events, k);
  }

  /** The completion block with this monitor's headers and limit. */
  method CompleteReport(state: TeamReport.ReportState, prefix: string)
    returns (after: TeamReport.ReportState, ghost stalled: bool)
    ensures after == Completed(state, prefix) && stalled == StallsOn(state)
  {
    var f, e, s;
    f, e, s, stalled :=
      TeamReport.Complete(state.friendly, state.enemy, state.sent, MSG_TEAM_FRIENDLY, MSG_TEAM_ENEMY, prefix,
                          PAYLOAD_LIMIT);
    after := TeamReport.ReportState(f, e, s);
  }

  /**
    However the chains divide around the completion block, at most one
    error message is sent in all: the first failure's, and only when none
    was sent before.
   */
  lemma AtMostOneError(error: bool, events: seq<TeamReport.Settled>, k: nat)
    requires k <= |events|
    ensures Announcements(error, events[..k]) + Announcements(error || FirstFailure(events[..k]).Some?, events[k..])
         == if !error && FirstFailure(events).Some? then [ErrDuringProcessMatchMsg(FirstFailure(events).value)] else []
  {
    var pre, post := events[..k], events[k..];
    assert pre + post == events;
    FirstFailureConcat(pre, post);
    if FirstFailure(pre).Some? {
      assert Announcements(error || FirstFailure(pre).Some?, post) == [];
    } else {
      assert Announcements(error, pre) == [];
    }
  }

  /**
    A team's list before the report holds exactly the blocks of the missing
    players routed to it and of the successful chains of its players.
   */
  lemma TeamListContents(missing: seq<WgApi.MissingPlayer>, events: seq<TeamReport.Settled>, team: TeamReport.Team,
                         b: string)
    ensures b in MissingBlocks(missing, team) + TeamReport.TeamBlocks(team, TeamReport.NameShipStats, events) <==>
            || (exists p :: p in missing && MissingTeam(p) == team && b == MissingBlock(p))
            || (exists k :: 0 <= k < |events| && TeamReport.Yields(team, TeamReport.NameShipStats, events[k], b))
  {
    MissingBlocksContents(missing, team, b);
    if b in TeamReport.TeamBlocks(team, TeamReport.NameShipStats, events) {
      TeamReport.TeamBlocksSound(team, TeamReport.NameShipStats, events, b);
    }
    if exists k :: 0 <= k < |events| && TeamReport.Yields(team, TeamReport.NameShipStats, events[k], b) {
      var k :| 0 <= k < |events| && TeamReport.Yields(team, TeamReport.NameShipStats, events[k], b);
      TeamReport.TeamBlocksComplete(team, TeamReport.NameShipStats, events, k, b);
    }
  }

  /**
    When the missing players fall short of the total and the matching ones
    make it up, the report is the last thing to happen: the completion block
    runs on the lists all chains built, after the announcement and at most
    one error message.
   */
  lemma FullMatchReport(total: nat, missing: seq<WgApi.MissingPlayer>, events: seq<TeamReport.Settled>,
                        prefix: string)
    requires |missing| < total == |missing| + |events|
    ensures var before := AfterEach(RoutedStart(missing), false, events);
            && SettledState(total, |missing|, false, prefix, RoutedStart(missing), events) == Completed(before, prefix)
            && before.friendly == MissingBlocks(missing, TeamReport.Friendly)
                                  + TeamReport.TeamBlocks(TeamReport.Friendly, TeamReport.NameShipStats, events)
            && before.enemy == MissingBlocks(missing, TeamReport.Enemy)
                               + TeamReport.TeamBlocks(TeamReport.Enemy, TeamReport.NameShipStats, events)
            && before.sent == [MSG_MATCH_DETECTED] + Announcements(false, events)
  {
    var start := RoutedStart(missing);
    assert events[..|events|] == events && events[|events|..] == [];
    AfterNone(Completed(AfterEach(start, false, events), prefix), FirstFailure(events).Some?);
  }

  /**
    In that case the channel starts with the announcement, then the first
    failure's message if a chain failed, and the report follows.
   */
  lemma FullMatchSent(total: nat, missing: seq<WgApi.MissingPlayer>, events: seq<TeamReport.Settled>, prefix: string)
    requires |missing| < total == |missing| + |events|
    ensures [MSG_MATCH_DETECTED] + Announcements(false, events)
            <= SettledState(total, |missing|, false, prefix, RoutedStart(missing), events).sent
  {
    FullMatchReport(total, missing, events, prefix);
    var before := AfterEach(RoutedStart(missing), false, events);
    TeamReport.ReportExtends(before.friendly, before.enemy, before.sent, MSG_TEAM_FRIENDLY, MSG_TEAM_ENEMY, prefix,
                             PAYLOAD_LIMIT);
  }

  /** The header the completion block puts in front of `team`'s list. */
  function TeamHeader(team: TeamReport.Team): string
  {
    if team == TeamReport.Friendly then MSG_TEAM_FRIENDLY else MSG_TEAM_ENEMY
  }

  /** A team's list, of the two a state holds. */
  function TeamList(state: TeamReport.ReportState, team: TeamReport.Team): seq<string>
  {
    if team == TeamReport.Friendly then state.friendly else state.enemy
  }

  /**
    In that case each team's list is its header followed, in comparator
    order, by exactly the blocks of its missing players and of its
    successful chains.
   */
  lemma FullMatchTeam(total: nat, missing: seq<WgApi.MissingPlayer>, events: seq<TeamReport.Settled>,
                      prefix: string, team: TeamReport.Team, b: string)
    requires |missing| < total == |missing| + |events| && team != TeamReport.Nowhere
    ensures var list := TeamList(SettledState(total, |missing|, false, prefix, RoutedStart(missing), events), team);
            && |list| >= 1 && list[0] == TeamHeader(team)
            && Sorting.SortedBy(list[1..], JsText.Lower)
            && (b in list[1..] <==>
                  || (exists p :: p in missing && MissingTeam(p) == team && b == MissingBlock(p))
                  || (exists k :: 0 <= k < |events| && TeamReport.Yields(team, TeamReport.NameShipStats, events[k], b)))
  {
    FullMatchReport(total, missing, events, prefix);
    var before := AfterEach(RoutedStart(missing), false, events);
    TeamReport.HeadedMembers(TeamHeader(team), TeamList(before, team), b);
    TeamListContents(missing, events, team, b);
  }

  // ---------------------------------------------------------------------
  // The state one processMatch call shares among its callbacks
  // ---------------------------------------------------------------------

  class MatchSession {
    const totalPlayers: nat
    /** `MSG_COMPACT_PREFIX` without its `%s`. */
    const prefix: string
    var processedPlayers: nat
    var friendlyMsg: seq<string>
    var enemyMsg: seq<string>
    var error: bool
    var sent: seq<string>
    /** How many times the completion block was entered. */
    ghost var completions: nat
    /** The completion block met a block longer than the limit and loops forever. */
    ghost var stalled: bool

    ghost predicate Valid()
      reads this
    {
      && |prefix| <= LENGTH_MSG_COMPACT_PREFIX
      && completions <= 1
      && (processedPlayers < totalPlayers ==> completions == 0)
      && (stalled ==> completions == 1)
    }

    function State(): TeamReport.ReportState
      reads this
    {
      TeamReport.ReportState(friendlyMsg, enemyMsg, sent)
    }

    /** `processMatch` up to the player-id lookup: the match is announced and the state is fresh. */
    constructor(totalPlayers: nat, prefix: string)
      requires |prefix| <= LENGTH_MSG_COMPACT_PREFIX
      ensures Valid()
      ensures this.totalPlayers == totalPlayers && this.prefix == prefix
      ensures processedPlayers == 0 && friendlyMsg == [] && enemyMsg == [] && !error
      ensures sent == [MSG_MATCH_DETECTED]
      ensures completions == 0 && !stalled
    {
      this.totalPlayers := totalPlayers;
      this.prefix := prefix;
      processedPlayers := 0;
      friendlyMsg := [];
      enemyMsg := [];
      error := false;
      sent := [MSG_MATCH_DETECTED];
      completions := 0;
      stalled := false;
    }

    /**
      The `searchMultiplePlayerIds` callback: routes every missing player and
      counts it, then hands back the matching players whose chains start. A
      rejection has no handler, so nothing happens.
     */
    method OnPlayerIds(ids: WgApi.Outcome<WgApi.Lookup>) returns (chains: seq<WgApi.Vehicle>)
      requires Valid()
      modifies this
      ensures Valid()
      ensures ids.Rejected? ==> chains == [] && unchanged(this)
      ensures ids.Resolved? ==>
                && chains == ids.value.matching
                && friendlyMsg == old(friendlyMsg) + MissingBlocks(ids.value.missing, TeamReport.Friendly)
                && enemyMsg == old(enemyMsg) + MissingBlocks(ids.value.missing, TeamReport.Enemy)
                && processedPlayers == old(processedPlayers) + |ids.value.missing|
                && error == old(error) && sent == old(sent)
                && completions == old(completions) && stalled == old(stalled)
    {
      if ids.Rejected? {
        return [];
      }
      friendlyMsg, enemyMsg, processedPlayers :=
        RouteMissing(ids.value.missing, friendlyMsg, enemyMsg, processedPlayers);
      chains := ids.value.matching;
    }

    /**
      The completion check that ends every chain: when the counter equals the
      number of players, sort, add the headers and send the packed payloads.
     */
    method CheckComplete()
      requires Valid()
      requires processedPlayers == totalPlayers ==> completions == 0
      modifies this
      ensures Valid()
      ensures processedPlayers == old(processedPlayers) && error == old(error)
      ensures processedPlayers != totalPlayers ==>
                State() == old(State()) && completions == old(completions) && stalled == old(stalled)
      ensures processedPlayers == totalPlayers ==>
                && completions == 1 && State() == Completed(old(State()), prefix) && stalled == StallsOn(old(State()))
    {
      if processedPlayers == totalPlayers {
        var after;
        ghost var st;
        after, st := CompleteReport(State(), prefix);
        completions := 1;
        friendlyMsg, enemyMsg, sent, stalled := after.friendly, after.enemy, after.sent, st;
      }
    }

    /**
      The body of a chain's last callbacks before the completion check: a
      success pushes its block onto its team's list (a player without a team
      is dropped), a failure is sent only while `error` is still false; either
      way the counter rises by one.
     */
    method Record(event: TeamReport.Settled)
      requires Valid()
      modifies this
      ensures Valid()
      ensures processedPlayers == old(processedPlayers) + 1
      ensures error == (old(error) || event.result.Failure?)
      ensures State() == AfterOne(old(State()), old(error), event)
      ensures completions == old(completions) && stalled == old(stalled)
    {
      match event.result {
        case Success(stats, shipName) =>
          var msg := TeamReport.AsWrittenBlock(event.player, shipName, stats, event.numbers);
          if event.player.relation == 0 || event.player.relation == 1 {
            friendlyMsg := friendlyMsg + [msg];
          } else if event.player.relation == 2 {
            enemyMsg := enemyMsg + [msg];
          }
        case Failure(rejectReason) =>
          if !error {
            sent := sent + [ErrDuringProcessMatchMsg(rejectReason)];
          }
          error := true;
      }
      processedPlayers := processedPlayers + 1;
    }

    /** One matching player's chain settles, then the completion check runs. */
    method OnChainSettled(event: TeamReport.Settled)
      requires Valid()
      modifies this
      ensures Valid()
      ensures processedPlayers == old(processedPlayers) + 1
      ensures error == (old(error) || event.result.Failure?)
      ensures var after := AfterOne(old(State()), old(error), event);
              if processedPlayers == totalPlayers then
                completions == 1 && State() == Completed(after, prefix) && stalled == StallsOn(after)
              else
                State() == after && completions == old(completions) && stalled == old(stalled)
    {
      Record(event);
      CheckComplete();
    }

    /**
      Chains settling one after another, in any order: the completion block
      runs exactly when the counter passes through `totalPlayers`, which
      happens for at most one event, and the lists and the channel are what
      `SettledState` says.
     */
    method SettleAll(events: seq<TeamReport.Settled>)
      requires Valid()
      modifies this
      ensures Valid()
      ensures processedPlayers == old(processedPlayers) + |events|
      ensures completions == old(completions) +
                (if CompletesWithin(totalPlayers, old(processedPlayers), |events|) then 1 else 0)
      ensures error == (old(error) || FirstFailure(events).Some?)
      ensures State() == SettledState(totalPlayers, old(processedPlayers), old(error), prefix, old(State()), events)
      ensures stalled == SettledStalls(totalPlayers, old(processedPlayers), old(error), old(State()), old(stalled), events)
    {
      ghost var p0, error0, start, stalled0 := processedPlayers, error, State(), stalled;
      assert events[..0] == [];
      AfterNone(start, error0);
      for k := 0 to |events|
        invariant Valid()
        invariant processedPlayers == p0 + k
        invariant completions == old(completions) + (if CompletesWithin(totalPlayers, p0, k) then 1 else 0)
        invariant error == (error0 || FirstFailure(events[..k]).Some?)
        invariant State() == SettledState(totalPlayers, p0, error0, prefix, start, events[..k])
        invariant stalled == SettledStalls(totalPlayers, p0, error0, start, stalled0, events[..k])
      {
        OnChainSettled(events[k]);
        SettleStep(totalPlayers, p0, error0, prefix, start, stalled0, events, k);
        FirstFailureStep(events, k);
      }
      assert events[..|events|] == events;
    }
  }

  /** The settled chains of the matching players, in their order. */
  function MatchEvents(matching: seq<WgApi.Vehicle>,
                       statsResp: WgApi.Vehicle -> WgApi.Response<WgApi.StatsBody>,
                       shipResp: WgApi.Vehicle -> WgApi.Response<WgApi.Option<string>>,
                       numbers: WgApi.Vehicle -> UtilsStats.Numbers): seq<TeamReport.Settled>
  {
    seq(|matching|, i requires 0 <= i < |matching| =>
      TeamReport.Settled(matching[i], MatchChain(matching[i], statsResp(matching[i]), shipResp(matching[i])),
                         numbers(matching[i])))
  }

  /** The session once the missing players are routed: their blocks on the lists, the match announced. */
  function RoutedStart(missing: seq<WgApi.MissingPlayer>): TeamReport.ReportState
  {
    TeamReport.ReportState(MissingBlocks(missing, TeamReport.Friendly), MissingBlocks(missing, TeamReport.Enemy),
                           [MSG_MATCH_DETECTED])
  }

  /**
    `processMatch`, with every chain settling in the order of `matching`:
    the lookups are answered by `idsResp`, `statsResp` and `shipResp`. After
    the missing players are routed, the chains settle as `SettledState`
    says; the report is sent only when the missing players fall short of the
    total and the matching ones make it up. A rejected lookup leaves only
    the announcement.
   */
  method ProcessMatch(allPlayers: array<WgApi.Vehicle>, prefix: string,
                      idsResp: WgApi.Response<seq<WgApi.Account>>,
                      statsResp: WgApi.Vehicle -> WgApi.Response<WgApi.StatsBody>,
                      shipResp: WgApi.Vehicle -> WgApi.Response<WgApi.Option<string>>,
                      numbers: WgApi.Vehicle -> UtilsStats.Numbers)
    returns (session: MatchSession, ids: WgApi.Outcome<WgApi.Lookup>)
    requires |prefix| <= LENGTH_MSG_COMPACT_PREFIX
    modifies allPlayers
    ensures fresh(session) && session.Valid()
    ensures session.totalPlayers == allPlayers.Length
    ensures session.completions == 1 <==>
              ids.Resolved? && CompletesWithin(allPlayers.Length, |ids.value.missing|, |ids.value.matching|)
    ensures ids.Rejected? ==> session.State() == TeamReport.ReportState([], [], [MSG_MATCH_DETECTED])
    ensures ids.Resolved? ==>
              var events := MatchEvents(ids.value.matching, statsResp, shipResp, numbers);
              var missing := ids.value.missing;
              && session.State()
                 == SettledState(allPlayers.Length, |missing|, false, prefix, RoutedStart(missing), events)
              && session.stalled == SettledStalls(allPlayers.Length, |missing|, false, RoutedStart(missing), false, events)
    ensures ids.Rejected? || ids.value.matching == [] ==> session.sent == [MSG_MATCH_DETECTED]
  {
    session := new MatchSession(allPlayers.Length, prefix);
    ids := WgApi.SearchMultiplePlayerIds(allPlayers, idsResp);
    var matching := session.OnPlayerIds(ids);
    var events := MatchEvents(matching, statsResp, shipResp, numbers);
    ghost var start, processed := session.State(), session.processedPlayers;
    if ids.Resolved? {
      assert start == RoutedStart(ids.value.missing);
      assert processed == |ids.value.missing|;
    }
    if events == [] {
      SettledNone(allPlayers.Length, processed, false, prefix, start, session.stalled);
    }
    session.SettleAll(events);
    assert session.State() == SettledState(allPlayers.Length, processed, false, prefix, start, events);
  }

  /** No chain settling leaves everything as it was. */
  lemma SettledNone(total: nat, processed: nat, error: bool, prefix: string, start: TeamReport.ReportState,
                    stalled: bool)
    ensures SettledState(total, processed, error, prefix, start, []) == start
    ensures SettledStalls(total, processed, error, start, stalled, []) == stalled
  {
    AfterNone(start, error);
  }
}
