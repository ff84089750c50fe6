/** Dispatch and completion of agent tasks on one trade date (src/ashare_system/supervision_tasks.py). */
module SupervisionTasks {
  import opened BoundedLog
  import Text

  const HISTORY_CAP := 200

  /** A stored time text: absent or blank, not a time, or a time in microseconds. */
  datatype Time = Missing | Unreadable | At(time: int)

  /** The record of one agent: its last dispatch, completed or not. */
  datatype Task = Task(sentAt: Time, completedAt: Time, dispatchKey: string, tags: seq<string>, completionType: string)

  const NOTHING := Task(Missing, Missing, "", [], "")

  type Agents = map<string, Task>

  datatype Event =
    | Dispatched(agent: string, task: Task)
    | Completed(agent: string, dispatchKey: string, kind: string, at: Time)

  /** One row of an activity scan; whether it matches completion tags is judged elsewhere. */
  datatype Activity = Activity(agent: string, lastActive: Time, status: string, text: string)
  type Matcher = (Activity, seq<string>) -> bool

  function TaskOf(agents: Agents, agent: string): Task {
    if agent in agents then agents[agent] else NOTHING
  }

  /** The time given, or the clock. */
  function OrNow(given: Time, now: int): Time {
    if given.Missing? then At(now) else given
  }

  // ------------------------------------------------------------------- steps

  function DispatchEffect(agents: Agents, agent: string, key: string, tags: seq<string>, sentAt: Time): Agents {
    agents[agent := Task(sentAt, Missing, key, tags, "")]
  }

  function CompletionEffect(agents: Agents, agent: string, kind: string, completedAt: Time): Agents {
    agents[agent := TaskOf(agents, agent).(completedAt := completedAt, completionType := kind)]
  }

  datatype Verdict = Ignored | Confirmed | Observed

  /** What one activity says about its agent. */
  function Judge(task: Task, item: Activity, matches: Matcher): Verdict {
    if !task.sentAt.At? || !item.lastActive.At? || item.lastActive.time < task.sentAt.time then Ignored
    else if task.completedAt.At? && task.completedAt.time >= item.lastActive.time then Confirmed
    else if Text.Strip(item.status) in {"needs_work", "overdue"} then Ignored
    else if task.tags != [] && !matches(item, task.tags) then Ignored
    else Observed
  }

  /** The agents, the returned rows and the new history entries after some of the items. */
  datatype Progress = Progress(agents: Agents, updated: Agents, events: seq<Event>)

  function SyncOne(p: Progress, item: Activity, matches: Matcher): Progress {
    var agent := Text.Strip(item.agent);
    var task := TaskOf(p.agents, agent);
    if agent == "" then p else
      match Judge(task, item, matches)
      case Ignored => p
      case Confirmed => p.(updated := p.updated[agent := task])
      case Observed =>
        var done := task.(completedAt := item.lastActive, completionType := "activity_observed");
        Progress(p.agents[agent := done], p.updated[agent := done],
                 p.events + [Completed(agent, done.dispatchKey, done.completionType, done.completedAt)])
  }

  function Sync(agents: Agents, items: seq<Activity>, matches: Matcher): Progress {
    if items == [] then Progress(agents, map[], [])
    else SyncOne(Sync(agents, items[..|items| - 1], matches), items[|items| - 1], matches)
  }

  class DispatchControl {
    var agents: Agents
    var history: seq<Event>

    constructor ()
      ensures agents == map[] && history == []
    {
      agents, history := map[], [];
    }

    method RecordAgentTaskDispatch(agent: string, key: string, tags: seq<string>, given: Time, now: int)
      modifies this
      ensures agents == DispatchEffect(old(agents), agent, key, tags, OrNow(given, now))
      ensures history == Append(old(history), [Dispatched(agent, agents[agent])], 200)
    {
      var event := Task(if given.Missing? then At(now) else given, Missing, key, tags, "");
      agents := agents[agent := event];
      history := history + [Dispatched(agent, event)];
      history := Last(history, HISTORY_CAP);
    }

    method RecordAgentTaskCompletion(agent: string, kind: string, given: Time, now: int)
      modifies this
      ensures agents == CompletionEffect(old(agents), agent, kind, OrNow(given, now))
      ensures var event := Completed(agent, agents[agent].dispatchKey, kind, OrNow(given, now));
              history == Append(old(history), [event], 200)
    {
      var event := if agent in agents then agents[agent] else NOTHING;
      event := event.(completedAt := if given.Missing? then At(now) else given, completionType := kind);
      agents := agents[agent := event];
      history := history + [Completed(agent, event.dispatchKey, kind, event.completedAt)];
      history := Last(history, HISTORY_CAP);
    }

    method SyncAgentTaskCompletionFromActivity(items: seq<Activity>, matches: Matcher) returns (updated: Agents)
      modifies this
      ensures var p := Sync(old(agents), items, matches);
              agents == p.agents && updated == p.updated && history == Append(old(history), p.events, 200)
    {
      var synced, log, changed := agents, history, false;
      updated := map[];
      for n := 0 to |items|
        invariant var p := Sync(agents, items[..n], matches);
                  && synced == p.agents && updated == p.updated && log == history + p.events
                  && (changed <==> p.events != [])
        invariant !changed ==> synced == agents
      {
        assert items[..n + 1][..n] == items[..n];
        var item := items[n];
        assert Sync(agents, items[..n + 1], matches) == SyncOne(Sync(agents, items[..n], matches), item, matches);
        hide Sync, Text.Strip;
        var agent := Text.Strip(item.agent);
        if agent == "" { continue; }
        var existing := if agent in synced then synced[agent] else NOTHING;
        if !existing.sentAt.At? || !item.lastActive.At? { continue; }
        if item.lastActive.time < existing.sentAt.time { continue; }
        if existing.completedAt.At? && existing.completedAt.time >= item.lastActive.time {
          updated := updated[agent := existing];
          continue;
        }
        if Text.Strip(item.status) in {"needs_work", "overdue"} { continue; }
        if existing.tags != [] && !matches(item, existing.tags) { continue; }
        var event := existing.(completedAt := item.lastActive, completionType := "activity_observed");
        synced := synced[agent := event];
        updated := updated[agent := event];
        log := log + [Completed(agent, event.dispatchKey, event.completionType, event.completedAt)];
        changed := true;
      }
      assert items[..|items|] == items;
      if changed {
        agents := synced;
        history := Last(log, HISTORY_CAP);
      }
    }
  }

  // ------------------------------------------------------ what one sync keeps

  /** `a` is no later than `b`, as completions count: an unreadable or missing one is before everything. */
  predicate NoLater(a: Time, b: Time) {
    a.At? ==> b.At? && a.time <= b.time
  }

  /** Dispatch data stay, and completion only moves forward. */
  ghost predicate Advances(before: Agents, after: Agents) {
    forall agent ::
      var a, b := TaskOf(before, agent), TaskOf(after, agent);
      && b.sentAt == a.sentAt && b.tags == a.tags && b.dispatchKey == a.dispatchKey
      && NoLater(a.completedAt, b.completedAt)
      && (b.completedAt != a.completedAt ==>
            a.sentAt.At? && b.completedAt.At? && a.sentAt.time <= b.completedAt.time)
  }

  lemma SyncOneAdvances(p: Progress, item: Activity, matches: Matcher)
    ensures Advances(p.agents, SyncOne(p, item, matches).agents)
  {
  }

  lemma AdvancesTwice(a: Agents, b: Agents, c: Agents)
    requires Advances(a, b) && Advances(b, c)
    ensures Advances(a, c)
  {
    forall agent
      ensures var x, z := TaskOf(a, agent), TaskOf(c, agent);
              && z.sentAt == x.sentAt && z.tags == x.tags && z.dispatchKey == x.dispatchKey
              && NoLater(x.completedAt, z.completedAt)
              && (z.completedAt != x.completedAt ==>
                    x.sentAt.At? && z.completedAt.At? && x.sentAt.time <= z.completedAt.time)
    {
      var y := TaskOf(b, agent);
    }
  }

  /** Activity sync never touches the dispatch and moves completion only forward, never before the dispatch. */
  lemma {:induction false} SyncMovesForward(agents: Agents, items: seq<Activity>, matches: Matcher)
    ensures Advances(agents, Sync(agents, items, matches).agents)
  {
    if items != [] {
      var front := Sync(agents, items[..|items| - 1], matches);
      SyncMovesForward(agents, items[..|items| - 1], matches);
      SyncOneAdvances(front, items[|items| - 1], matches);
      AdvancesTwice(agents, front.agents, Sync(agents, items, matches).agents);
    }
  }

  // --------------------------------------------------- syncing the same twice

  /** The item can change nothing more. */
  ghost predicate Settled(agents: Agents, item: Activity, matches: Matcher) {
    Text.Strip(item.agent) == "" || !Judge(TaskOf(agents, Text.Strip(item.agent)), item, matches).Observed?
  }

  ghost predicate AllSettled(agents: Agents, items: seq<Activity>, matches: Matcher) {
    forall i :: 0 <= i < |items| ==> Settled(agents, items[i], matches)
  }

  /** The agents an item confirms or completes are those whose completion it does not exceed. */
  ghost predicate Reached(agents: Agents, item: Activity) {
    var agent := Text.Strip(item.agent);
    var task := TaskOf(agents, agent);
    && agent != "" && task.sentAt.At? && item.lastActive.At? && task.sentAt.time <= item.lastActive.time
    && task.completedAt.At? && item.lastActive.time <= task.completedAt.time
  }

  ghost predicate ReachedBy(agents: Agents, items: seq<Activity>, agent: string) {
    exists i :: 0 <= i < |items| && Text.Strip(items[i].agent) == agent && Reached(agents, items[i])
  }

  /** The rows returned are the final records of the agents that some item reached. */
  ghost predicate Returned(updated: Agents, agents: Agents, items: seq<Activity>) {
    forall agent ::
      && (agent in updated <==> ReachedBy(agents, items, agent))
      && (agent in updated ==> agent in agents && updated[agent] == agents[agent])
  }

  lemma SettledStays(before: Agents, after: Agents, item: Activity, matches: Matcher)
    requires Settled(before, item, matches) && Advances(before, after)
    ensures Settled(after, item, matches)
  {
    var agent := Text.Strip(item.agent);
    assert NoLater(TaskOf(before, agent).completedAt, TaskOf(after, agent).completedAt);
  }

  lemma {:induction false} SyncSettles(agents: Agents, items: seq<Activity>, matches: Matcher)
    ensures AllSettled(Sync(agents, items, matches).agents, items, matches)
  {
    if items != [] {
      var front := items[..|items| - 1];
      var p := Sync(agents, front, matches);
      var q := Sync(agents, items, matches);
      SyncSettles(agents, front, matches);
      assert items == front + [items[|items| - 1]] && q == SyncOne(p, items[|items| - 1], matches);
      hide Sync;
      SettlesOneMore(p, front, items[|items| - 1], matches);
    }
  }

  lemma OneSettles(p: Progress, item: Activity, matches: Matcher)
    ensures Settled(SyncOne(p, item, matches).agents, item, matches)
  {
  }

  lemma SettlesOneMore(p: Progress, front: seq<Activity>, last: Activity, matches: Matcher)
    requires AllSettled(p.agents, front, matches)
    ensures AllSettled(SyncOne(p, last, matches).agents, front + [last], matches)
  {
    var q := SyncOne(p, last, matches);
    SyncOneAdvances(p, last, matches);
    OneSettles(p, last, matches);
    hide SyncOne, Settled, Advances;
    forall i | 0 <= i < |front|
      ensures Settled(q.agents, front[i], matches)
    {
      SettledStays(p.agents, q.agents, front[i], matches);
    }
  }

  /** With everything settled a sync changes no record and adds no history. */
  lemma {:induction false} SettledSyncIsQuiet(agents: Agents, items: seq<Activity>, matches: Matcher)
    requires AllSettled(agents, items, matches)
    ensures Sync(agents, items, matches).agents == agents && Sync(agents, items, matches).events == []
  {
    if items != [] {
      var front := items[..|items| - 1];
      assert forall i :: 0 <= i < |front| ==> Settled(agents, items[i], matches) && front[i] == items[i];
      SettledSyncIsQuiet(agents, front, matches);
      assert Settled(agents, items[|items| - 1], matches);
    }
  }

  lemma ReachedBySplits(agents: Agents, items: seq<Activity>, last: Activity, agent: string)
    ensures ReachedBy(agents, items + [last], agent) <==>
            ReachedBy(agents, items, agent) || (Text.Strip(last.agent) == agent && Reached(agents, last))
  {
    var all := items + [last];
    if i :| 0 <= i < |items| && Text.Strip(items[i].agent) == agent && Reached(agents, items[i]) {
      assert all[i] == items[i];
    }
    assert all[|items|] == last;
  }

  /** Completion that moves forward reaches what it reached. */
  lemma StaysReached(before: Agents, after: Agents, items: seq<Activity>, agent: string)
    requires Advances(before, after) && ReachedBy(before, items, agent)
    ensures ReachedBy(after, items, agent)
  {
    var i :| 0 <= i < |items| && Text.Strip(items[i].agent) == agent && Reached(before, items[i]);
    assert NoLater(TaskOf(before, agent).completedAt, TaskOf(after, agent).completedAt);
    assert Reached(after, items[i]);
  }

  lemma SameTaskSameReach(before: Agents, after: Agents, items: seq<Activity>, agent: string)
    requires TaskOf(before, agent) == TaskOf(after, agent)
    ensures ReachedBy(before, items, agent) <==> ReachedBy(after, items, agent)
  {
    forall i | 0 <= i < |items| && Text.Strip(items[i].agent) == agent
      ensures Reached(before, items[i]) <==> Reached(after, items[i])
    {
    }
  }

  lemma ReturnsOneMore(p: Progress, items: seq<Activity>, last: Activity, matches: Matcher)
    requires Returned(p.updated, p.agents, items)
    ensures var q := SyncOne(p, last, matches); Returned(q.updated, q.agents, items + [last])
  {
    var q := SyncOne(p, last, matches);
    SyncOneAdvances(p, last, matches);
    hide ReachedBy, Text.Strip;
    forall agent
      ensures agent in q.updated <==> ReachedBy(q.agents, items + [last], agent)
      ensures agent in q.updated ==> agent in q.agents && q.updated[agent] == q.agents[agent]
    {
      ReachedBySplits(q.agents, items, last, agent);
      if ReachedBy(p.agents, items, agent) { StaysReached(p.agents, q.agents, items, agent); }
      if agent != Text.Strip(last.agent) || q.agents == p.agents {
        SameTaskSameReach(p.agents, q.agents, items, agent);
      }
    }
  }

  lemma {:induction false} SyncReturns(agents: Agents, items: seq<Activity>, matches: Matcher)
    ensures var p := Sync(agents, items, matches); Returned(p.updated, p.agents, items)
  {
    if items != [] {
      var front := items[..|items| - 1];
      SyncReturns(agents, front, matches);
      ReturnsOneMore(Sync(agents, front, matches), front, items[|items| - 1], matches);
      assert items == front + [items[|items| - 1]];
    }
  }

  /** Syncing the same activities again changes no record, adds no history, and returns the same rows. */
  lemma SyncIsIdempotent(agents: Agents, items: seq<Activity>, matches: Matcher)
    ensures var once := Sync(agents, items, matches);
            var twice := Sync(once.agents, items, matches);
            twice.agents == once.agents && twice.updated == once.updated && twice.events == []
  {
    var once := Sync(agents, items, matches);
    SyncSettles(agents, items, matches);
    SettledSyncIsQuiet(once.agents, items, matches);
    SyncReturns(agents, items, matches);
    SyncReturns(once.agents, items, matches);
    var twice := Sync(once.agents, items, matches);
    assert twice.updated.Keys == once.updated.Keys;
  }

  // -------------------------------------------------------------------- runs

  /** One call on the control state; the clock is read where no time is given. */
  datatype Call =
    | Dispatch(agent: string, key: string, tags: seq<string>, given: Time, now: int)
    | Complete(agent: string, kind: string, given: Time, now: int)
    | Observe(items: seq<Activity>, now: int)

  function Next(agents: Agents, c: Call, matches: Matcher): Agents {
    match c
    case Dispatch(agent, key, tags, given, now) => DispatchEffect(agents, agent, key, tags, OrNow(given, now))
    case Complete(agent, kind, given, now) => CompletionEffect(agents, agent, kind, OrNow(given, now))
    case Observe(items, _) => Sync(agents, items, matches).agents
  }

  function Run(calls: seq<Call>, matches: Matcher): Agents {
    if calls == [] then map[] else Next(Run(calls[..|calls| - 1], matches), calls[|calls| - 1], matches)
  }

  /** Times in order: both readable implies the second is not before the first. */
  predicate InOrder(sent: Time, completed: Time) {
    sent.At? && completed.At? ==> sent.time <= completed.time
  }

  ghost predicate Lifecycle(agents: Agents) {
    forall agent :: agent in agents ==> InOrder(agents[agent].sentAt, agents[agent].completedAt)
  }

  /** The caller of a completion does not date it before the dispatch on record. */
  predicate DatedInOrder(agents: Agents, c: Call) {
    c.Complete? ==> InOrder(TaskOf(agents, c.agent).sentAt, OrNow(c.given, c.now))
  }

  lemma StepInOrder(agents: Agents, c: Call, matches: Matcher)
    requires Lifecycle(agents)
    ensures Lifecycle(Next(agents, c, matches)) <==> DatedInOrder(agents, c)
  {
    match c
    case Dispatch(_, _, _, _, _) =>
    case Complete(agent, kind, given, now) =>
      assert agent in Next(agents, c, matches);
    case Observe(items, _) =>
      SyncMovesForward(agents, items, matches);
      var after := Next(agents, c, matches);
      forall agent | agent in after
        ensures InOrder(after[agent].sentAt, after[agent].completedAt)
      {
        assert TaskOf(after, agent) == after[agent];
        var task := TaskOf(agents, agent);
        assert agent in agents ==> InOrder(agents[agent].sentAt, agents[agent].completedAt);
      }
  }

  /**
   * In every state a run passes through, no task is completed before it was sent, if and only if no
   * explicit completion was dated before the dispatch it completes.
   */
  lemma {:induction false} LifecycleIff(calls: seq<Call>, matches: Matcher)
    ensures (forall n :: 0 <= n <= |calls| ==> Lifecycle(Run(calls[..n], matches))) <==>
            (forall n :: 0 <= n < |calls| ==> DatedInOrder(Run(calls[..n], matches), calls[n]))
  {
    forall n | 0 <= n < |calls|
      ensures calls[..n + 1][..n] == calls[..n]
      ensures Run(calls[..n + 1], matches) == Next(Run(calls[..n], matches), calls[n], matches)
    {
    }
    if forall n :: 0 <= n <= |calls| ==> Lifecycle(Run(calls[..n], matches)) {
      forall n | 0 <= n < |calls|
        ensures DatedInOrder(Run(calls[..n], matches), calls[n])
      {
        assert Lifecycle(Run(calls[..n], matches)) && Lifecycle(Run(calls[..n + 1], matches));
        StepInOrder(Run(calls[..n], matches), calls[n], matches);
      }
    }
    if forall n :: 0 <= n < |calls| ==> DatedInOrder(Run(calls[..n], matches), calls[n]) {
      for n := 0 to |calls|
        invariant forall m :: 0 <= m <= n ==> Lifecycle(Run(calls[..m], matches))
      {
        assert DatedInOrder(Run(calls[..n], matches), calls[n]);
        StepInOrder(Run(calls[..n], matches), calls[n], matches);
      }
    }
  }

  /** Nobody gives times and the clock never goes back. */
  ghost predicate Clocked(calls: seq<Call>) {
    && (forall i :: 0 <= i < |calls| && !calls[i].Observe? ==> calls[i].given.Missing?)
    && (forall i, j :: 0 <= i < j < |calls| ==> calls[i].now <= calls[j].now)
  }

  lemma {:induction false} SentByTheClock(calls: seq<Call>, matches: Matcher, agent: string)
    requires Clocked(calls)
    ensures var sent := TaskOf(Run(calls, matches), agent).sentAt;
            sent.Missing? || (sent.At? && calls != [] && sent.time <= calls[|calls| - 1].now)
  {
    if calls != [] {
      var front := calls[..|calls| - 1];
      SentByTheClock(front, matches, agent);
      var last := calls[|calls| - 1];
      if last.Observe? {
        SyncMovesForward(Run(front, matches), last.items, matches);
        assert TaskOf(Run(calls, matches), agent).sentAt == TaskOf(Run(front, matches), agent).sentAt;
      }
    }
  }

  /** With times left to a clock that never goes back, every reachable state is in order. */
  lemma ClockedRunsAreInOrder(calls: seq<Call>, matches: Matcher)
    requires Clocked(calls)
    ensures Lifecycle(Run(calls, matches))
  {
    forall n | 0 <= n < |calls|
      ensures DatedInOrder(Run(calls[..n], matches), calls[n])
    {
      if calls[n].Complete? {
        SentByTheClock(calls[..n], matches, calls[n].agent);
      }
    }
    LifecycleIff(calls, matches);
    assert calls[..|calls|] == calls;
  }

  // ------------------------------------------------------ one activity at a time

  /**
   * An activity of a named agent that is no earlier than its dispatch completes the task, unless a
   * completion that late is on record, its status says that work is missing, or it does not match the
   * tags the task asks for.
   */
  lemma JudgeIs(task: Task, item: Activity, matches: Matcher, sent: int, at: int)
    requires task.sentAt == At(sent) && item.lastActive == At(at)
    ensures var late := task.completedAt.At? && at <= task.completedAt.time;
            var unfinished := Text.Strip(item.status) == "needs_work" || Text.Strip(item.status) == "overdue";
            && (at < sent ==> Judge(task, item, matches) == Ignored)
            && (sent <= at && late ==> Judge(task, item, matches) == Confirmed)
            && (sent <= at && !late ==>
                  (Judge(task, item, matches) == Observed <==>
                     !unfinished && (task.tags == [] || matches(item, task.tags))))
            && (sent <= at && !late && Judge(task, item, matches) != Observed ==>
                  Judge(task, item, matches) == Ignored)
  {
  }

  /** Without a readable dispatch or activity time nothing is concluded. */
  lemma JudgeWithoutTimes(task: Task, item: Activity, matches: Matcher)
    requires !task.sentAt.At? || !item.lastActive.At?
    ensures Judge(task, item, matches) == Ignored
  {
  }

  /** What one activity does: a completion is dated by the activity and logged, a confirmed record is returned. */
  lemma SyncOneIs(p: Progress, item: Activity, matches: Matcher)
    ensures var agent := Text.Strip(item.agent);
            var task := if agent in p.agents then p.agents[agent] else Task(Missing, Missing, "", [], "");
            var q := SyncOne(p, item, matches);
            && (agent == "" || Judge(task, item, matches) == Ignored ==> q == p)
            && (agent != "" && Judge(task, item, matches) == Confirmed ==>
                  q == p.(updated := p.updated[agent := task]))
            && (agent != "" && Judge(task, item, matches) == Observed ==>
                  var done := Task(task.sentAt, item.lastActive, task.dispatchKey, task.tags, "activity_observed");
                  q == Progress(p.agents[agent := done], p.updated[agent := done],
                                p.events + [Completed(agent, task.dispatchKey, "activity_observed", item.lastActive)]))
  {
  }

  /** A dispatch starts a new record; a completion keeps the dispatch on record, or makes a record without one. */
  lemma RecordsAre(agents: Agents, agent: string, key: string, tags: seq<string>, kind: string, given: Time, now: int)
    ensures var at := if given == Missing then At(now) else given;
            && DispatchEffect(agents, agent, key, tags, OrNow(given, now)) ==
               agents[agent := Task(at, Missing, key, tags, "")]
            && (agent in agents ==>
                  CompletionEffect(agents, agent, kind, OrNow(given, now)) ==
                  agents[agent := Task(agents[agent].sentAt, at, agents[agent].dispatchKey, agents[agent].tags, kind)])
            && (agent !in agents ==>
                  CompletionEffect(agents, agent, kind, OrNow(given, now)) ==
                  agents[agent := Task(Missing, at, "", [], kind)])
  {
  }

  /** A call of a run is the operation it names. */
  lemma NextIs(agents: Agents, agent: string, key: string, tags: seq<string>, kind: string, given: Time, now: int)
    ensures Next(agents, Dispatch(agent, key, tags, given, now), (x, y) => true) ==
            agents[agent := Task(if given == Missing then At(now) else given, Missing, key, tags, "")]
    ensures Next(agents, Complete(agent, kind, given, now), (x, y) => true) ==
            CompletionEffect(agents, agent, kind, OrNow(given, now))
  {
  }
}
