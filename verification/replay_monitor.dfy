/**
  `processMatch` of replay_monitor.js, the earlier revision of the match
  monitor. Every vehicle runs its own chain `searchPlayerId`, `stats`,
  `searchShipName`; every failure is sent to the channel. The team lists
  live at module level and are emptied by each call, while the counters
  are local to the call: the monitor and each run are separate objects.
 */
module ReplayMonitor {
  import JsText
  import Sorting
  import UtilsStats
  import WgApi
  import Packer
  import TeamReport

  const MATCH_DETECTED := "Detected a match! Beginning match processing..."
  const ERROR_DURING_PROCESS_MATCH := "**ERROR**: Error while processing match. Some stats may be missing:\n"
  const FRIENDLY_HEADER := "\n==========\nFriendly Team\n==========\n\n"
  const ENEMY_HEADER := "\n=========\nEnemy Team\n=========\n\n"
  const PREFIX := ".\n"
  const DISCORD_MAX_CHAR := 2000
  /** The packing limit, 1998, which the source writes as a literal: Discord's 2000 less the prefix. */
  const PAYLOAD_LIMIT := DISCORD_MAX_CHAR - |PREFIX|

  function FailureMsg(reason: string): string
  {
    ERROR_DURING_PROCESS_MATCH + reason + "\n"
  }

  /** A player search answer whose positive `meta.count` comes with at least one entry. */
  predicate CountedList(resp: WgApi.Response<WgApi.PlayerList>)
  {
    resp.Ok? && resp.body.count > 0 ==> |resp.body.data| > 0
  }

  /**
    One vehicle's chain: the player id from its name, then the stats for that
    id and the vehicle's ship, then the ship's name. The first rejection skips
    every later step, so the answers to later lookups do not matter.
   */
  function ReplayChain(player: WgApi.Vehicle, idResp: WgApi.Response<WgApi.PlayerList>,
                       statsResp: WgApi.Response<WgApi.StatsBody>,
                       shipResp: WgApi.Response<WgApi.Option<string>>): (r: TeamReport.ChainResult)
    requires CountedList(idResp)
    ensures var id := WgApi.SearchPlayerId(WgApi.Some(player.name), idResp);
            && (id.Rejected? ==> r == TeamReport.Failure(id.reason))
            && (id.Resolved? ==>
                  var st := WgApi.Stats(WgApi.Some(id.value), WgApi.Some(player.shipId), statsResp);
                  var sn := WgApi.SearchShipName(WgApi.Some(player.shipId), shipResp);
                  && (r.Success? <==> st.Resolved? && sn.Resolved?)
                  && (r.Success? ==> r.stats == st.value && r.shipName == sn.value)
                  && (st.Rejected? ==> r == TeamReport.Failure(st.reason))
                  && (st.Resolved? && sn.Rejected? ==> r == TeamReport.Failure(sn.reason)))
  {
    match WgApi.SearchPlayerId(WgApi.Some(player.name), idResp)
    case Rejected(reason) => TeamReport.Failure(reason)
    case Resolved(playerId) =>
      match WgApi.Stats(WgApi.Some(playerId), WgApi.Some(player.shipId), statsResp)
      case Rejected(reason) => TeamReport.Failure(reason)
      case Resolved(stats) =>
        match WgApi.SearchShipName(WgApi.Some(player.shipId), shipResp)
        case Rejected(reason) => TeamReport.Failure(reason)
        case Resolved(shipName) => TeamReport.Success(stats, shipName)
  }

  /** A settled chain's message to the channel: one for every failure. */
  function FailureSent(result: TeamReport.ChainResult): seq<string>
  {
    if result.Failure? then [FailureMsg(result.reason)] else []
  }

  /** The messages `events` send: one per failure, in settling order. */
  function Failures(events: seq<TeamReport.Settled>): seq<string>
  {
    if events == [] then [] else FailureSent(events[0].result) + Failures(events[1..])
  }

  /** Every failed chain sends its message, and nothing else is sent. */
  lemma {:induction false} FailuresContents(events: seq<TeamReport.Settled>, m: string)
    ensures |Failures(events)| <= |events|
    ensures m in Failures(events) <==>
            exists k :: 0 <= k < |events| && events[k].result.Failure? && m == FailureMsg(events[k].result.reason)
  {
    if events != [] {
      FailuresContents(events[1..], m);
      assert forall k :: 1 <= k < |events| ==> events[k] == events[1..][k - 1];
      if exists k :: 0 <= k < |events| && events[k].result.Failure? && m == FailureMsg(events[k].result.reason) {
        var k :| 0 <= k < |events| && events[k].result.Failure? && m == FailureMsg(events[k].result.reason);
        if k > 0 {
          assert events[1..][k - 1] == events[k];
        }
      }
    }
  }

  /** One more settled chain sends its message, if any, at the end. */
  lemma {:induction false} FailuresAppend(events: seq<TeamReport.Settled>, e: TeamReport.Settled)
    ensures Failures(events + [e]) == Failures(events) + FailureSent(e.result)
  {
    if events != [] {
      assert (events + [e])[0] == events[0] && (events + [e])[1..] == events[1..] + [e];
      FailuresAppend(events[1..], e);
    } else {
      assert [] + [e] == [e];
    }
  }

  /** One settled chain on `state`: its block onto its team's list, its failure onto the channel. */
  function AfterOne(state: TeamReport.ReportState, event: TeamReport.Settled): TeamReport.ReportState
  {
    TeamReport.ReportState(
      TeamReport.Pushed(state.friendly, TeamReport.Friendly, TeamReport.StatsNameShip,
                        event.player, event.result, event.numbers),
      TeamReport.Pushed(state.enemy, TeamReport.Enemy, TeamReport.StatsNameShip,
                        event.player, event.result, event.numbers),
      state.sent + FailureSent(event.result))
  }

  /**
    The lists and the channel once `events` have settled on `state` with no
    completion block among them: each team's list gains the blocks of its
    successes and the channel the message of every failure, in settling
    order.
   */
  function AfterEach(state: TeamReport.ReportState, events: seq<TeamReport.Settled>): TeamReport.ReportState
  {
    TeamReport.ReportState(
      state.friendly + TeamReport.TeamBlocks(TeamReport.Friendly, TeamReport.StatsNameShip, events),
      state.enemy + TeamReport.TeamBlocks(TeamReport.Enemy, TeamReport.StatsNameShip, events),
      state.sent + Failures(events))
  }

  lemma AfterNone(state: TeamReport.ReportState)
    ensures AfterEach(state, []) == state
  {
    assert state.friendly + [] == state.friendly && state.enemy + [] == state.enemy && state.sent + [] == state.sent;
  }

  /** The callback's effect of one more chain agrees with the closed form. */
  lemma AfterEachAppend(state: TeamReport.ReportState, events: seq<TeamReport.Settled>, event: TeamReport.Settled)
    ensures AfterEach(state, events + [event]) == AfterOne(AfterEach(state, events), event)
  {
    var e := event;
    var before := AfterEach(state, events);
    var after := AfterOne(before, event);
    var whole := AfterEach(state, events + [event]);
    assert whole.friendly == after.friendly by {
      TeamReport.TeamBlocksAppend(TeamReport.Friendly, TeamReport.StatsNameShip, events, e);
      TeamReport.PushedAppend(before.friendly, TeamReport.Friendly, TeamReport.StatsNameShip, e.player, e.result, e.numbers);
    }
    assert whole.enemy == after.enemy by {
      TeamReport.TeamBlocksAppend(TeamReport.Enemy, TeamReport.StatsNameShip, events, e);
      TeamReport.PushedAppend(before.enemy, TeamReport.Enemy, TeamReport.StatsNameShip, e.player, e.result, e.numbers);
    }
    assert whole.sent == after.sent by {
      FailuresAppend(events, e);
    }
  }

  /** `AfterEachAppend` on the prefixes of one sequence of events. */
  lemma AfterEachStep(state: TeamReport.ReportState, events: seq<TeamReport.Settled>, j: nat)
    requires j < |events|
    ensures AfterEach(state, events[..j + 1]) == AfterOne(AfterEach(state, events[..j]), events[j])
  {
    assert events[..j + 1] == events[..j] + [events[j]];
    AfterEachAppend(state, events[..j], events[j]);
  }

  /** The completion block on `state`: both teams sorted behind their headers, the payloads sent behind `'.\n'`. */
  function Completed(state: TeamReport.ReportState): TeamReport.ReportState
  {
    TeamReport.Report(state.friendly, state.enemy, state.sent, FRIENDLY_HEADER, ENEMY_HEADER, PREFIX, PAYLOAD_LIMIT)
  }

  /** The completion block on `state` would loop forever. */
  predicate StallsOn(state: TeamReport.ReportState)
  {
    TeamReport.Stalls(state.friendly, state.enemy, PAYLOAD_LIMIT)
  }

  /** The run's counter, standing at `processed`, reaches `total` within `n` more chains. */
  predicate CompletesWithin(total: nat, processed: nat, n: nat)
  {
    processed < total <= processed + n
  }

  /**
    What `events` of one run leave, settling one after another on lists and
    channel `start` while the run's counter stood at `processed` of
    `total`: if the counter reaches `total` at the k-th event, the
    completion block runs on what the first k events left and the later
    events settle on its result; otherwise the events only settle.
   */
  function SettledState(total: nat, processed: nat, start: TeamReport.ReportState,
                        events: seq<TeamReport.Settled>): TeamReport.ReportState
  {
    if CompletesWithin(total, processed, |events|) then
      var k := total - processed;
      AfterEach(Completed(AfterEach(start, events[..k])), events[k..])
    else AfterEach(start, events)
  }

  /** Whether the completion block, if `events` make it run, loops forever. */
  predicate SettledStalls(total: nat, processed: nat, start: TeamReport.ReportState, stalled: bool,
                          events: seq<TeamReport.Settled>)
  {
    if CompletesWithin(total, processed, |events|) then StallsOn(AfterEach(start, events[..total - processed]))
    else stalled
  }

  /** `SettleStep` for a chain that settles after the completion block ran. */
  lemma SettleStepLater(total: nat, processed: nat, start: TeamReport.ReportState, stalled: bool,
                        events: seq<TeamReport.Settled>, k: nat)
    requires k < |events| && CompletesWithin(total, processed, k)
    ensures SettledState(total, processed, start, events[..k + 1])
         == AfterOne(SettledState(total, processed, start, events[..k]), events[k])
    ensures SettledStalls(total, processed, start, stalled, events[..k + 1])
         == SettledStalls(total, processed, start, stalled, events[..k])
  {
    var due := total - processed;
    var upto, upto1 := events[..k], events[..k + 1];
    assert upto1[..due] == upto[..due] == events[..due];
    var rest := events[due..];
    assert upto[due..] == rest[..k - due] && upto1[due..] == rest[..k - due + 1];
    AfterEachStep(Completed(AfterEach(start, events[..due])), rest, k - due);
  }

  /** `SettleStep` for the chain that brings the run's counter to `total`. */
  lemma SettleStepCompleting(total: nat, processed: nat, start: TeamReport.ReportState, stalled: bool,
                             events: seq<TeamReport.Settled>, k: nat)
    requires k < |events| && processed + k + 1 == total
    ensures var after := AfterOne(SettledState(total, processed, start, events[..k]), events[k]);
            && SettledState(total, processed, start, events[..k + 1]) == Completed(after)
            && SettledStalls(total, processed, start, stalled, events[..k + 1]) == StallsOn(after)
  {
    var upto1 := events[..k + 1];
    var after := AfterOne(AfterEach(start, events[..k]), events[k]);
    assert SettledState(total, processed, start, events[..k]) == AfterEach(start, events[..k]);
    AfterEachStep(start, events, k);
    assert AfterEach(start, upto1) == after;
    assert upto1[..k + 1] == upto1 && upto1[k + 1..] == [];
    AfterNone(Completed(after));
    assert SettledState(total, processed, start, upto1) == AfterEach(Completed(after), []);
  }

  /** `SettleStep` for a chain that settles before the run's counter reaches `total`, or when it never does. */
  lemma SettleStepQuiet(total: nat, processed: nat, start: TeamReport.ReportState, stalled: bool,
                        events: seq<TeamReport.Settled>, k: nat)
    requires k < |events| && !CompletesWithin(total, processed, k) && processed + k + 1 != total
    ensures SettledState(total, processed, start, events[..k + 1])
         == AfterOne(SettledState(total, processed, start, events[..k]), events[k])
    ensures SettledStalls(total, processed, start, stalled, events[..k + 1]) == stalled
  {
    AfterEachStep(start, events, k);
  }

  /**
    One more chain settling agrees with `SettledState`: it settles on what
    the earlier ones left, and the completion block runs right after it when
    it brings the run's counter to `total`.
   */
  lemma SettleStep(total: nat, processed: nat, start: TeamReport.ReportState, stalled: bool,
                   events: seq<TeamReport.Settled>, k: nat)
    requires k < |events|
    ensures var after := AfterOne(SettledState(total, processed, start, events[..k]), events[k]);
            && SettledState(total, processed, start, events[..k + 1])
               == (if processed + k + 1 == total then Completed(after) else after)
            && SettledStalls(total, processed, start, stalled, events[..k + 1])
               == (if processed + k + 1 == total then StallsOn(after)
                   else SettledStalls(total, processed, start, stalled, events[..k]))
  {
    if CompletesWithin(total, processed, k) {
      SettleStepLater(total, processed, start, stalled, events, k);
    } else if processed + k + 1 == total {
      SettleStepCompleting(total, processed, start, stalled, events, k);
    } else {
      SettleStepQuiet(total, processed, start, stalled, events, k);
    }
  }

  /** The completion block with this monitor's headers, prefix and limit. */
  method CompleteReport(state: TeamReport.ReportState) returns (after: TeamReport.ReportState, ghost stalled: bool)
    ensures after == Completed(state) && stalled == StallsOn(state)
  {
    var f, e, s;
    f, e, s, stalled :=
      TeamReport.Complete(state.friendly, state.enemy, state.sent, FRIENDLY_HEADER, ENEMY_HEADER, PREFIX, PAYLOAD_LIMIT);
    after := TeamReport.ReportState(f, e, s);
  }

  /** The counters of one `processMatch` call. */
  class ReplayRun {
    const totalPlayers: nat
    var processedPlayers: nat
    /** How many times this run entered the completion block. */
    ghost var completions: nat

    ghost predicate Valid()
      reads this
    {
      completions <= 1 && (processedPlayers < totalPlayers ==> completions == 0)
    }

    constructor(totalPlayers: nat)
      ensures Valid()
      ensures this.totalPlayers == totalPlayers && processedPlayers == 0 && completions == 0
    {
      this.totalPlayers := totalPlayers;
      processedPlayers := 0;
      completions := 0;
    }
  }

  /** The module-level state: the team lists every run pushes onto, and the channel. */
  class Monitor {
    var friendlyMsg: seq<string>
    var enemyMsg: seq<string>
    var sent: seq<string>
    /** A completion block met a block longer than the limit and loops forever. */
    ghost var stalled: bool

    function State(): TeamReport.ReportState
      reads this
    {
      TeamReport.ReportState(friendlyMsg, enemyMsg, sent)
    }

    constructor()
      ensures friendlyMsg == [] && enemyMsg == [] && sent == [] && !stalled
    {
      friendlyMsg := [];
      enemyMsg := [];
      sent := [];
      stalled := false;
    }

    /**
      A match starts: it is announced, the module-level lists are emptied and
      a run with its own counters begins, one chain per vehicle.
     */
    method ProcessMatch(vehicles: seq<WgApi.Vehicle>) returns (run: ReplayRun)
      modifies this
      ensures fresh(run) && run.Valid()
      ensures run.totalPlayers == |vehicles| && run.processedPlayers == 0 && run.completions == 0
      ensures friendlyMsg == [] && enemyMsg == [] && sent == old(sent) + [MATCH_DETECTED]
      ensures stalled == old(stalled)
    {
      sent := sent + [MATCH_DETECTED];
      run := new ReplayRun(|vehicles|);
      friendlyMsg := [];
      enemyMsg := [];
    }

    /**
      The last callbacks of a vehicle's chain in `run`: a success is pushed
      onto the module-level list of its team, whichever run is current (a
      player without a team is dropped); a failure is sent; either way the
      run's counter rises by one.
     */
    method Record(run: ReplayRun, event: TeamReport.Settled)
      requires run.Valid()
      modifies this, run
      ensures run.processedPlayers == old(run.processedPlayers) + 1
      ensures run.completions == old(run.completions)
      ensures run.processedPlayers <= run.totalPlayers ==> run.completions == 0
      ensures State() == AfterOne(old(State()), event)
      ensures stalled == old(stalled)
    {
      match event.result {
        case Success(stats, shipName) =>
          var msg := TeamReport.SuccessBlock(event.player, shipName, stats, event.numbers);
          if event.player.relation == 0 || event.player.relation == 1 {
            friendlyMsg := friendlyMsg + [msg];
          } else if event.player.relation == 2 {
            enemyMsg := enemyMsg + [msg];
          }
        case Failure(rejectReason) =>
          sent := sent + [FailureMsg(rejectReason)];
      }
      run.processedPlayers := run.processedPlayers + 1;
    }

    /** The completion check: when `run` has counted all its players, sort, add the headers and send. */
    method CheckComplete(run: ReplayRun)
      requires run.processedPlayers <= run.totalPlayers ==> run.completions == 0
      requires run.completions <= 1
      modifies this, run
      ensures run.Valid()
      ensures run.processedPlayers == old(run.processedPlayers)
      ensures run.processedPlayers == run.totalPlayers ==>
                run.completions == 1 && State() == Completed(old(State())) && stalled == StallsOn(old(State()))
      ensures run.processedPlayers != run.totalPlayers ==>
                State() == old(State()) && run.completions == old(run.completions) && stalled == old(stalled)
    {
      if run.processedPlayers == run.totalPlayers {
        run.completions := 1;
        Finish();
      }
    }

    /** The completion block proper: the lists and the channel become the report's. */
    method Finish()
      modifies this
      ensures State() == Completed(old(State())) && stalled == StallsOn(old(State()))
    {
      var after;
      ghost var st;
      after, st := CompleteReport(State());
      friendlyMsg, enemyMsg, sent, stalled := after.friendly, after.enemy, after.sent, st;
    }

    /** One vehicle's chain settles in `run`, then the completion check runs. */
    method OnVehicleSettled(run: ReplayRun, event: TeamReport.Settled)
      requires run.Valid()
      modifies this, run
      ensures run.Valid()
      ensures run.processedPlayers == old(run.processedPlayers) + 1
      ensures var after := AfterOne(old(State()), event);
              if run.processedPlayers == run.totalPlayers then
                run.completions == 1 && State() == Completed(after) && stalled == StallsOn(after)
              else
                State() == after && run.completions == old(run.completions) && stalled == old(stalled)
    {
      Record(run, event);
      CheckComplete(run);
    }

    /**
      Chains of `run` settling one after another, in any order: the
      completion block runs exactly when the run's counter passes through
      its total, so at most once per run, and the lists and the channel are
      what `SettledState` says.
     */
    method SettleAll(run: ReplayRun, events: seq<TeamReport.Settled>)
      requires run.Valid()
      modifies this, run
      ensures run.Valid()
      ensures run.processedPlayers == old(run.processedPlayers) + |events|
      ensures run.completions == old(run.completions) +
                (if CompletesWithin(run.totalPlayers, old(run.processedPlayers), |events|) then 1 else 0)
      ensures State() == SettledState(run.totalPlayers, old(run.processedPlayers), old(State()), events)
      ensures stalled == SettledStalls(run.totalPlayers, old(run.processedPlayers), old(State()), old(stalled), events)
    {
      ghost var p0, start, stalled0, c0 := run.processedPlayers, State(), stalled, run.completions;
      ghost var total := run.totalPlayers;
      assert events[..0] == [];
      AfterNone(start);
      for k := 0 to |events|
        invariant run.Valid()
        invariant run.processedPlayers == p0 + k
        invariant run.completions == c0 + (if CompletesWithin(total, p0, k) then 1 else 0)
        invariant State() == SettledState(total, p0, start, events[..k])
        invariant stalled == SettledStalls(total, p0, start, stalled0, events[..k])
      {
        OnVehicleSettled(run, events[k]);
        SettleStep(total, p0, start, stalled0, events, k);
      }
      assert events[..|events|] == events;
    }
  }

  /** The settled chains of the vehicles, in their order. */
  function ReplayEvents(vehicles: seq<WgApi.Vehicle>,
                        idResp: WgApi.Vehicle -> WgApi.Response<WgApi.PlayerList>,
                        statsResp: WgApi.Vehicle -> WgApi.Response<WgApi.StatsBody>,
                        shipResp: WgApi.Vehicle -> WgApi.Response<WgApi.Option<string>>,
                        numbers: WgApi.Vehicle -> UtilsStats.Numbers): (r: seq<TeamReport.Settled>)
    requires forall v :: CountedList(idResp(v))
    ensures |r| == |vehicles|
    ensures forall i :: 0 <= i < |r| ==> r[i].player == vehicles[i]
  {
    if vehicles == [] then []
    else
      var v := vehicles[0];
      [TeamReport.Settled(v, ReplayChain(v, idResp(v), statsResp(v), shipResp(v)), numbers(v))]
      + ReplayEvents(vehicles[1..], idResp, statsResp, shipResp, numbers)
  }

  /**
    `processMatch` with every vehicle's chain settling in vehicle order, the
    lookups answered by `idResp`, `statsResp` and `shipResp`: every vehicle
    is counted once, so the completion block runs exactly once for a match
    with at least one vehicle, and never for an empty one; the lists and
    the channel are what `SettledState` says, starting from emptied lists
    and the announcement.
   */
  method RunMatch(monitor: Monitor, vehicles: seq<WgApi.Vehicle>,
                  idResp: WgApi.Vehicle -> WgApi.Response<WgApi.PlayerList>,
                  statsResp: WgApi.Vehicle -> WgApi.Response<WgApi.StatsBody>,
                  shipResp: WgApi.Vehicle -> WgApi.Response<WgApi.Option<string>>,
                  numbers: WgApi.Vehicle -> UtilsStats.Numbers)
    returns (run: ReplayRun)
    requires forall v :: CountedList(idResp(v))
    modifies monitor
    ensures fresh(run) && run.Valid()
    ensures run.processedPlayers == run.totalPlayers == |vehicles|
    ensures run.completions == (if |vehicles| > 0 then 1 else 0)
    ensures var start := TeamReport.ReportState([], [], old(monitor.sent) + [MATCH_DETECTED]);
            var events := ReplayEvents(vehicles, idResp, statsResp, shipResp, numbers);
            && monitor.State() == SettledState(|vehicles|, 0, start, events)
            && monitor.stalled == SettledStalls(|vehicles|, 0, start, old(monitor.stalled), events)
  {
    run := monitor.ProcessMatch(vehicles);
    var events := ReplayEvents(vehicles, idResp, statsResp, shipResp, numbers);
    monitor.SettleAll(run, events);
  }

  /**
    A run with at least one vehicle ends with the report: the completion
    block runs on the lists all chains built, after the announcement and
    every failure's message.
   */
  lemma FullRunReport(events: seq<TeamReport.Settled>, sent: seq<string>)
    requires |events| > 0
    ensures var start := TeamReport.ReportState([], [], sent + [MATCH_DETECTED]);
            var before := AfterEach(start, events);
            SettledState(|events|, 0, start, events) == Completed(before)
  {
    var start := TeamReport.ReportState([], [], sent + [MATCH_DETECTED]);
    assert events[..|events|] == events && events[|events|..] == [];
    AfterNone(Completed(AfterEach(start, events)));
  }

  /** In that case the channel gains the announcement and the message of every failure before the report. */
  lemma FullRunSent(events: seq<TeamReport.Settled>, sent: seq<string>)
    requires |events| > 0
    ensures sent + [MATCH_DETECTED] + Failures(events)
            <= SettledState(|events|, 0, TeamReport.ReportState([], [], sent + [MATCH_DETECTED]), events).sent
  {
    FullRunReport(events, sent);
    var before := AfterEach(TeamReport.ReportState([], [], sent + [MATCH_DETECTED]), events);
    TeamReport.ReportExtends(before.friendly, before.enemy, before.sent, FRIENDLY_HEADER, ENEMY_HEADER, PREFIX,
                             PAYLOAD_LIMIT);
  }

  /** The header in front of a team's list in the report. */
  function TeamHeader(team: TeamReport.Team): string
  {
    if team == TeamReport.Enemy then ENEMY_HEADER else FRIENDLY_HEADER
  }

  /** A team's list. */
  function TeamList(state: TeamReport.ReportState, team: TeamReport.Team): seq<string>
  {
    if team == TeamReport.Enemy then state.enemy else state.friendly
  }

  /** The blocks of a team's successful chains are exactly the blocks `events` yield for it. */
  lemma TeamListContents(events: seq<TeamReport.Settled>, team: TeamReport.Team, b: string)
    ensures b in TeamReport.TeamBlocks(team, TeamReport.StatsNameShip, events) <==>
            exists k :: 0 <= k < |events| && TeamReport.Yields(team, TeamReport.StatsNameShip, events[k], b)
  {
    if b in TeamReport.TeamBlocks(team, TeamReport.StatsNameShip, events) {
      TeamReport.TeamBlocksSound(team, TeamReport.StatsNameShip, events, b);
    }
    forall k | 0 <= k < |events| && TeamReport.Yields(team, TeamReport.StatsNameShip, events[k], b)
      ensures b in TeamReport.TeamBlocks(team, TeamReport.StatsNameShip, events)
    {
      TeamReport.TeamBlocksComplete(team, TeamReport.StatsNameShip, events, k, b);
    }
  }

  /**
    In that case each team's list is its header followed, in comparator
    order, by exactly the blocks of its successful chains.
   */
  lemma FullRunTeam(events: seq<TeamReport.Settled>, sent: seq<string>, team: TeamReport.Team, b: string)
    requires |events| > 0 && team != TeamReport.Nowhere
    ensures var list := TeamList(SettledState(|events|, 0, TeamReport.ReportState([], [], sent + [MATCH_DETECTED]), events), team);
            && |list| >= 1 && list[0] == TeamHeader(team)
            && Sorting.SortedBy(list[1..], JsText.Lower)
            && (b in list[1..] <==>
                  exists k :: 0 <= k < |events| && TeamReport.Yields(team, TeamReport.StatsNameShip, events[k], b))
  {
    FullRunReport(events, sent);
    var before := AfterEach(TeamReport.ReportState([], [], sent + [MATCH_DETECTED]), events);
    assert TeamList(before, team) == TeamReport.TeamBlocks(team, TeamReport.StatsNameShip, events);
    TeamReport.HeadedMembers(TeamHeader(team), TeamList(before, team), b);
    TeamListContents(events, team, b);
  }
}
