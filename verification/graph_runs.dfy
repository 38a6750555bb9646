/**
 Properties of every run of the orchestration graph (`src/graph.py`): the
 shape of the node trace, that it only follows declared edges, how the log
 grows, which keys each node may change, and what `log_summary` leaves behind.
 */
module GraphRuns {
  import opened Wrappers
  import opened Text
  import opened State
  import opened SupervisorAgent
  import opened ZoomAgent
  import opened DebriefAgent
  import opened NotionAgent
  import opened Graph

  /**
   The trace shape `supervisor (task supervisor)* [task]`, and for a completed
   run `supervisor (task supervisor)* log_summary`: even positions hold the
   supervisor, odd positions a task node, except that a completed run ends in
   its one `log_summary`.
   */
  predicate Shaped(steps: seq<Step>, completed: bool) {
    && (forall i :: 0 <= i < |steps| && i % 2 == 0 ==> steps[i].node == SupervisorNode)
    && (forall i :: 0 <= i < |steps| && i % 2 == 1 && !(completed && i == |steps| - 1) ==> IsHandler(steps[i].node))
    && (completed ==> |steps| >= 2 && |steps| % 2 == 0 && steps[|steps| - 1].node == LogSummaryNode)
  }

  lemma ShapedPrepend(a: Step, b: Step, rest: seq<Step>, completed: bool)
    requires a.node == SupervisorNode && IsHandler(b.node) && Shaped(rest, completed)
    ensures Shaped([a, b] + rest, completed)
  {
    var steps := [a, b] + rest;
    forall i | 2 <= i < |steps|
      ensures steps[i] == rest[i - 2] && i % 2 == (i - 2) % 2
    {
    }
  }

  /** The supervisor's first decision and the state it leaves. */
  function Routed(s: AgentState, sc: Script): AgentState
    requires |sc.decisions| > 0
  {
    Merge(s, SupervisorUpdate(s, sc.decisions[0]))
  }

  /** Every run has the trace shape of `Shaped`; a run completes only through `log_summary`. */
  lemma {:induction false} RunShape(s: AgentState, sc: Script)
    ensures Shaped(Run(s, sc).steps, Run(s, sc).outcome == Completed)
    decreases |sc.decisions|
  {
    if |sc.decisions| > 0 {
      var s1 := Routed(s, sc);
      var route := s1.route.value;
      if route != End {
        match HandlerStep(s1, route, sc.(decisions := sc.decisions[1..]))
        case None =>
        case Some((h, rest)) =>
          RunShape(h.after, rest);
          var t := Run(s, sc);
          ShapedPrepend(t.steps[0], h, Run(h.after, rest).steps, t.outcome == Completed);
      }
    }
  }

  /**
   A shaped trace only follows declared edges: it starts at the successor of
   `START`, each node is followed by one of its successors, and a completed
   trace ends at a predecessor of `END`.
   */
  lemma ShapedFollowsEdges(steps: seq<Step>, completed: bool)
    requires Shaped(steps, completed)
    ensures |steps| > 0 ==> Edge(Start, steps[0].node)
    ensures forall i :: 0 <= i < |steps| - 1 ==> Edge(steps[i].node, steps[i + 1].node)
    ensures completed ==> Edge(steps[|steps| - 1].node, Finish)
  {
    forall i | 0 <= i < |steps| - 1
      ensures Edge(steps[i].node, steps[i + 1].node)
    {
      if i % 2 == 0 {
        TargetOnto(steps[i + 1].node);
      }
    }
  }

  /** Every run walks the declared graph from `START`, and a completed one arrives at `END`. */
  lemma RunFollowsEdges(s: AgentState, sc: Script)
    ensures var t := Run(s, sc);
      && (|t.steps| > 0 ==> Edge(Start, t.steps[0].node))
      && (forall i :: 0 <= i < |t.steps| - 1 ==> Edge(t.steps[i].node, t.steps[i + 1].node))
      && (t.outcome == Completed ==> Edge(t.steps[|t.steps| - 1].node, Finish))
  {
    RunShape(s, sc);
    ShapedFollowsEdges(Run(s, sc).steps, Run(s, sc).outcome == Completed);
  }

  /** The state a step starts from. */
  function Before(s: AgentState, steps: seq<Step>, i: nat): AgentState
    requires i <= |steps|
  {
    if i == 0 then s else steps[i - 1].after
  }

  /**
   One step taken correctly from `before`: its state is the merge of its
   return value, it changes no declared key its node does not own, a node
   other than `log_summary` adds one log entry, and after a supervisor step
   the next node is the `targets` entry of the route it wrote.
   */
  predicate StepOk(before: AgentState, st: Step, next: Option<Node>) {
    && st.after == Merge(before, st.update)
    && SameOutside(st.after, before, Owned(st.node))
    && (st.node != LogSummaryNode ==> |st.update.values.stepSummary| == 1)
    && (st.node == SupervisorNode && next.Some? ==> st.after.route.Some? && next.value == Target(st.after.route.value))
  }

  function NextNode(steps: seq<Step>, i: nat): Option<Node>
    requires i < |steps|
  {
    if i + 1 < |steps| then Some(steps[i + 1].node) else None
  }

  /** Every step of `steps`, taken in order from `s`, is taken correctly. */
  predicate Chained(s: AgentState, steps: seq<Step>)
    decreases |steps|
  {
    |steps| == 0 || (StepOk(s, steps[0], NextNode(steps, 0)) && Chained(steps[0].after, steps[1..]))
  }

  lemma {:induction false} RunChained(s: AgentState, sc: Script)
    ensures Chained(s, Run(s, sc).steps)
    decreases |sc.decisions|
  {
    var t := Run(s, sc);
    if |sc.decisions| > 0 {
      var u := SupervisorUpdate(s, sc.decisions[0]);
      MergeKeepsUnwritten(s, u, {RouteKey, NextStep});
      var s1 := Routed(s, sc);
      var route := s1.route.value;
      if route == End {
        assert t.steps[1..][1..] == [];
      } else {
        match HandlerStep(s1, route, sc.(decisions := sc.decisions[1..]))
        case None =>
        case Some((h, rest)) =>
          MergeKeepsUnwritten(s1, h.update, Owned(h.node));
          RunChained(h.after, rest);
          var r := Run(h.after, rest);
          ChainedPair(s, Step(SupervisorNode, u, s1), h, r.steps);
      }
    }
  }

  /** Two correct steps ahead of a chained run give a chained run. */
  lemma ChainedPair(s: AgentState, a: Step, b: Step, rest: seq<Step>)
    requires StepOk(s, a, Some(b.node))
    requires StepOk(a.after, b, if |rest| > 0 then Some(rest[0].node) else None)
    requires Chained(b.after, rest)
    ensures Chained(s, [a, b] + rest)
  {
    var steps := [a, b] + rest;
    assert steps[1..] == [b] + rest;
    assert steps[1..][1..] == rest;
  }

  lemma {:induction false} ChainedAt(s: AgentState, steps: seq<Step>, i: nat)
    requires Chained(s, steps) && i < |steps|
    ensures StepOk(Before(s, steps, i), steps[i], NextNode(steps, i))
    decreases i
  {
    if i > 0 {
      ChainedAt(steps[0].after, steps[1..], i - 1);
      assert steps[1..][i - 1] == steps[i];
      if i > 1 {
        assert steps[1..][i - 2] == steps[i - 1];
      }
    }
  }

  /** A run is a fold of merges: every step's state is the merge of the node's return value into the state before it. */
  lemma RunIsFold(s: AgentState, sc: Script)
    ensures var t := Run(s, sc);
      forall i :: 0 <= i < |t.steps| ==> t.steps[i].after == Merge(Before(s, t.steps, i), t.steps[i].update)
  {
    var t := Run(s, sc);
    RunChained(s, sc);
    forall i | 0 <= i < |t.steps|
      ensures t.steps[i].after == Merge(Before(s, t.steps, i), t.steps[i].update)
    {
      ChainedAt(s, t.steps, i);
    }
  }

  /** The node after each supervisor step is the `targets` entry of the `route` that step wrote. */
  lemma RunDispatch(s: AgentState, sc: Script)
    ensures var t := Run(s, sc);
      forall i :: 0 <= i < |t.steps| - 1 && t.steps[i].node == SupervisorNode ==>
        t.steps[i].after.route.Some? && t.steps[i + 1].node == Target(t.steps[i].after.route.value)
  {
    var t := Run(s, sc);
    RunChained(s, sc);
    forall i | 0 <= i < |t.steps| - 1 && t.steps[i].node == SupervisorNode
      ensures t.steps[i].after.route.Some? && t.steps[i + 1].node == Target(t.steps[i].after.route.value)
    {
      ChainedAt(s, t.steps, i);
    }
  }

  /**
   Ownership: each step changes no declared key outside the ones its node
   writes. A task node never touches another node's keys, and `log_summary`
   touches none.
   */
  lemma RunRespectsOwnership(s: AgentState, sc: Script)
    ensures var t := Run(s, sc);
      forall i :: 0 <= i < |t.steps| ==> SameOutside(t.steps[i].after, Before(s, t.steps, i), Owned(t.steps[i].node))
  {
    var t := Run(s, sc);
    RunChained(s, sc);
    forall i | 0 <= i < |t.steps|
      ensures SameOutside(t.steps[i].after, Before(s, t.steps, i), Owned(t.steps[i].node))
    {
      ChainedAt(s, t.steps, i);
    }
  }

  /**
   The log only grows, one entry per node: before `log_summary`, the state
   after the `i`-th step (counting from 0) holds the initial log followed by
   exactly `i + 1` further entries.
   */
  lemma {:induction false} RunLogGrowth(s: AgentState, sc: Script, i: nat)
    requires i < |Run(s, sc).steps| && Run(s, sc).steps[i].node != LogSummaryNode
    ensures s.stepSummary <= Run(s, sc).steps[i].after.stepSummary
    ensures |Run(s, sc).steps[i].after.stepSummary| == |s.stepSummary| + i + 1
    decreases i
  {
    var t := Run(s, sc);
    StepAddsOne(s, sc, i);
    if i > 0 {
      LogSummaryIsLast(s, sc, i - 1);
      RunLogGrowth(s, sc, i - 1);
      PrefixTransitive(s.stepSummary, t.steps[i - 1].after.stepSummary, t.steps[i].after.stepSummary);
    }
  }

  /** A step other than `log_summary` extends the log it starts from by exactly one entry. */
  lemma StepAddsOne(s: AgentState, sc: Script, i: nat)
    requires i < |Run(s, sc).steps| && Run(s, sc).steps[i].node != LogSummaryNode
    ensures var t := Run(s, sc);
      && Before(s, t.steps, i).stepSummary <= t.steps[i].after.stepSummary
      && |t.steps[i].after.stepSummary| == |Before(s, t.steps, i).stepSummary| + 1
  {
    RunChained(s, sc);
    ChainedAt(s, Run(s, sc).steps, i);
  }

  /** `log_summary` only ever runs last. */
  lemma LogSummaryIsLast(s: AgentState, sc: Script, i: nat)
    requires i + 1 < |Run(s, sc).steps|
    ensures Run(s, sc).steps[i].node != LogSummaryNode
  {
    RunShape(s, sc);
  }

  lemma PrefixTransitive<T>(a: seq<T>, b: seq<T>, c: seq<T>)
    requires a <= b && b <= c
    ensures a <= c
  {
    assert c[..|a|] == b[..|a|];
  }

  /** Consecutive steps: the log after a step extends the log after the one before it. */
  lemma StepExtendsLog(s: AgentState, sc: Script, j: nat)
    requires 0 < j < |Run(s, sc).steps|
    ensures Run(s, sc).steps[j - 1].after.stepSummary <= Run(s, sc).steps[j].after.stepSummary
  {
    var t := Run(s, sc);
    RunChained(s, sc);
    ChainedAt(s, t.steps, j);
  }

  /** No entry of the log is ever dropped or reordered: each step's log is a prefix of every later one. */
  lemma {:induction false} LogOnlyGrows(s: AgentState, sc: Script, i: nat, j: nat)
    requires i <= j < |Run(s, sc).steps|
    ensures Run(s, sc).steps[i].after.stepSummary <= Run(s, sc).steps[j].after.stepSummary
    decreases j - i
  {
    if i < j {
      var t := Run(s, sc);
      LogOnlyGrows(s, sc, i, j - 1);
      StepExtendsLog(s, sc, j);
      PrefixTransitive(t.steps[i].after.stepSummary, t.steps[j - 1].after.stepSummary, t.steps[j].after.stepSummary);
    }
  }

  /**
   How a trace `t` run from `s` ends when it completes: it has at least two
   steps; the log before `log_summary` holds the initial log plus one entry
   for each supervisor and task invocation; `log_summary` reports that log,
   and its return value appends the whole log to itself.
   */
  predicate Completes(s: AgentState, t: Trace) {
    t.outcome == Completed ==>
      && |t.steps| >= 2
      && var n := |t.steps|;
        var logged := t.steps[n - 2].after.stepSummary;
        && |logged| == |s.stepSummary| + n - 1
        && t.steps[n - 1].update.finalSummary == Some(FinalSummaryText(logged))
        && t.steps[n - 1].after.stepSummary == logged + logged
  }

  /** Every completed run ends as `Completes` says. */
  lemma {:induction false} RunCompletion(s: AgentState, sc: Script)
    ensures Completes(s, Run(s, sc))
    decreases |sc.decisions|
  {
    if |sc.decisions| > 0 {
      var u := SupervisorUpdate(s, sc.decisions[0]);
      var s1 := Routed(s, sc);
      var routed := Step(SupervisorNode, u, s1);
      assert |s1.stepSummary| == |s.stepSummary| + 1;
      var route := s1.route.value;
      if route == End {
        var u2 := LogSummaryUpdate(s1);
        assert Run(s, sc) == Trace([routed, Step(LogSummaryNode, u2, Merge(s1, u2))], Completed);
      } else {
        match HandlerStep(s1, route, sc.(decisions := sc.decisions[1..]))
        case None =>
        case Some((h, rest)) =>
          RunCompletion(h.after, rest);
          assert |h.after.stepSummary| == |s.stepSummary| + 2;
          CompletesPrepend(s, routed, h, Run(h.after, rest));
      }
    }
  }

  lemma CompletesPrepend(s: AgentState, a: Step, h: Step, r: Trace)
    requires Completes(h.after, r) && |h.after.stepSummary| == |s.stepSummary| + 2
    ensures Completes(s, Prepend(a, h, r))
  {
    var t := Prepend(a, h, r);
    if t.outcome == Completed {
      var n := |t.steps|;
      assert t.steps[n - 1] == r.steps[n - 3] && t.steps[n - 2] == r.steps[n - 4];
    }
  }

  /**
   A run is bounded by its script: it has at most two steps per routing
   decision, and a script whose supervisor never chooses `end` never reaches
   `END`.
   */
  lemma {:induction false} RunBounded(s: AgentState, sc: Script)
    ensures |Run(s, sc).steps| <= 2 * |sc.decisions|
    ensures (forall k :: 0 <= k < |sc.decisions| ==> sc.decisions[k].route != End) ==> Run(s, sc).outcome == Stalled
    decreases |sc.decisions|
  {
    if |sc.decisions| > 0 {
      var s1 := Routed(s, sc);
      var route := s1.route.value;
      if route != End {
        match HandlerStep(s1, route, sc.(decisions := sc.decisions[1..]))
        case None =>
        case Some((h, rest)) =>
          RunBounded(h.after, rest);
          if forall k :: 0 <= k < |sc.decisions| ==> sc.decisions[k].route != End {
            forall k | 0 <= k < |rest.decisions| ensures rest.decisions[k].route != End {
              assert rest.decisions[k] == sc.decisions[k + 1];
            }
          }
      }
    }
  }

  /**
   The `route := "end"` the notion node writes is never read: its only
   successor is the supervisor, whose prompt does not show `route` and whose
   return value overwrites it, so any other value there leads to the same
   state after the supervisor.
   */
  lemma NotionRouteIsOverwritten(s: AgentState, n: NotionOutput, d: SupervisorOutput, other: Option<Route>)
    ensures forall b :: Edge(NotionNode, b) ==> b == SupervisorNode
    ensures var s1 := Merge(s, NotionUpdate(s, n));
      var s1' := s1.(route := other);
      && BuildContext(s1') == BuildContext(s1)
      && Merge(s1', SupervisorUpdate(s1', d)) == Merge(s1, SupervisorUpdate(s1, d))
  {
  }

  /** The nodes a trace visits, in order. */
  function Nodes(steps: seq<Step>): (nodes: seq<Node>)
    ensures |nodes| == |steps|
    ensures forall i :: 0 <= i < |steps| ==> nodes[i] == steps[i].node
  {
    if |steps| == 0 then [] else [steps[0].node] + Nodes(steps[1..])
  }

  /**
   The typical request: the supervisor routes to zoom, then to debrief, then
   ends. The run visits supervisor, zoom, supervisor, debrief, supervisor and
   `log_summary`; the report counts five entries, and the final log holds ten,
   because `log_summary` appends the log to itself.
   */
  lemma ZoomThenDebrief(s: AgentState, d1: SupervisorOutput, d2: SupervisorOutput, d3: SupervisorOutput,
                        z: ZoomOutput, b: DebriefOutput)
    requires s.stepSummary == []
    requires d1.route == Zoom && d2.route == Debrief && d3.route == End
    ensures var t := Run(s, Script([d1, d2, d3], [z], [b], []));
      var logged := [d1.stepSummary, z.stepSummary, d2.stepSummary, b.stepSummary, d3.stepSummary];
      && t.outcome == Completed
      && Nodes(t.steps) == [SupervisorNode, ZoomNode, SupervisorNode, DebriefNode, SupervisorNode, LogSummaryNode]
      && t.steps[5].update.finalSummary == Some(FinalSummaryText(logged))
      && t.steps[5].after.stepSummary == logged + logged
      && |t.steps[5].after.stepSummary| == 10
  {
    var s2, t2 := ZoomPhase(s, d1, d2, d3, z, b);
    var s4, t3 := DebriefPhase(s2, d2, d3, b);
    var s5 := EndPhase(s4, d3);
    var t := Run(s, Script([d1, d2, d3], [z], [b], []));
    FiveEntries(s.stepSummary, s2.stepSummary, s4.stepSummary, s5.stepSummary,
                d1.stepSummary, z.stepSummary, d2.stepSummary, b.stepSummary, d3.stepSummary);
    assert |t.steps| == 6;
    assert t.steps[2] == t2.steps[0] && t.steps[3] == t2.steps[1];
    assert t.steps[4] == t3.steps[0] && t.steps[5] == t3.steps[1];
    SixNodes(t.steps);
  }

  lemma FiveEntries<T>(l0: seq<T>, l2: seq<T>, l4: seq<T>, l5: seq<T>, a: T, b: T, c: T, d: T, e: T)
    requires l0 == [] && l2 == l0 + [a, b] && l4 == l2 + [c, d] && l5 == l4 + [e]
    ensures l5 == [a, b, c, d, e]
  {
  }

  lemma SixNodes(steps: seq<Step>)
    requires |steps| == 6
    ensures Nodes(steps) == [steps[0].node, steps[1].node, steps[2].node, steps[3].node, steps[4].node, steps[5].node]
  {
  }

  /** The first two steps of that request: the supervisor routes to zoom, and zoom runs. */
  lemma ZoomPhase(s: AgentState, d1: SupervisorOutput, d2: SupervisorOutput, d3: SupervisorOutput,
                  z: ZoomOutput, b: DebriefOutput) returns (s2: AgentState, t2: Trace)
    requires d1.route == Zoom
    ensures var t := Run(s, Script([d1, d2, d3], [z], [b], []));
      && t2 == Run(s2, Script([d2, d3], [], [b], []))
      && t.outcome == t2.outcome && |t.steps| == |t2.steps| + 2 && t.steps[2..] == t2.steps
      && t.steps[0].node == SupervisorNode && t.steps[1].node == ZoomNode
      && s2.stepSummary == s.stepSummary + [d1.stepSummary, z.stepSummary]
  {
    var sc := Script([d1, d2, d3], [z], [b], []);
    var s1 := Routed(s, sc);
    s2 := Merge(s1, ZoomUpdate(s1, z));
    assert sc.(decisions := sc.decisions[1..]).(zoom := sc.zoom[1..]) == Script([d2, d3], [], [b], []);
    RunThroughHandler(s, sc);
    t2 := Run(s2, Script([d2, d3], [], [b], []));
  }

  /** The next two steps: the supervisor routes to debrief, and debrief runs. */
  lemma DebriefPhase(s2: AgentState, d2: SupervisorOutput, d3: SupervisorOutput, b: DebriefOutput)
    returns (s4: AgentState, t3: Trace)
    requires d2.route == Debrief
    ensures var t2 := Run(s2, Script([d2, d3], [], [b], []));
      && t3 == Run(s4, Script([d3], [], [], []))
      && t2.outcome == t3.outcome && |t2.steps| == |t3.steps| + 2 && t2.steps[2..] == t3.steps
      && t2.steps[0].node == SupervisorNode && t2.steps[1].node == DebriefNode
      && s4.stepSummary == s2.stepSummary + [d2.stepSummary, b.stepSummary]
  {
    var sc2 := Script([d2, d3], [], [b], []);
    var s3 := Routed(s2, sc2);
    s4 := Merge(s3, DebriefUpdate(s3, b));
    assert sc2.(decisions := sc2.decisions[1..]).(debrief := sc2.debrief[1..]) == Script([d3], [], [], []);
    RunThroughHandler(s2, sc2);
    t3 := Run(s4, Script([d3], [], [], []));
  }

  /** The last two steps: the supervisor chooses `end`, and `log_summary` runs. */
  lemma EndPhase(s4: AgentState, d3: SupervisorOutput) returns (s5: AgentState)
    requires d3.route == End
    ensures var t3 := Run(s4, Script([d3], [], [], []));
      && s5.stepSummary == s4.stepSummary + [d3.stepSummary]
      && t3.outcome == Completed && |t3.steps| == 2
      && t3.steps[0].node == SupervisorNode && t3.steps[1].node == LogSummaryNode
      && t3.steps[1].update.finalSummary == Some(FinalSummaryText(s5.stepSummary))
      && t3.steps[1].after.stepSummary == s5.stepSummary + s5.stepSummary
  {
    var sc3 := Script([d3], [], [], []);
    s5 := Routed(s4, sc3);
    RunToEnd(s4, sc3);
  }

  /** A supervisor step routing to a task that has an answer: the two steps, then the run from there. */
  lemma RunThroughHandler(s: AgentState, sc: Script)
    requires |sc.decisions| > 0 && Routed(s, sc).route.value != End
    requires HandlerStep(Routed(s, sc), Routed(s, sc).route.value, sc.(decisions := sc.decisions[1..])).Some?
    ensures var s1 := Routed(s, sc);
      var (h, rest) := HandlerStep(s1, s1.route.value, sc.(decisions := sc.decisions[1..])).value;
      Run(s, sc) == Prepend(Step(SupervisorNode, SupervisorUpdate(s, sc.decisions[0]), s1), h, Run(h.after, rest))
  {
  }

  /** A supervisor step routing to `end`: the supervisor's step, then `log_summary`, and the run completes. */
  lemma RunToEnd(s: AgentState, sc: Script)
    requires |sc.decisions| > 0 && Routed(s, sc).route.value == End
    ensures var s1 := Routed(s, sc);
      var u := LogSummaryUpdate(s1);
      Run(s, sc) == Trace([Step(SupervisorNode, SupervisorUpdate(s, sc.decisions[0]), s1), Step(LogSummaryNode, u, Merge(s1, u))], Completed)
  {
  }
}
