/**
 The older workflow of `graph.py`: a router asks the model once which node to
 run, and from then on each handler is followed by a routing call whose
 normalised answer picks the next handler directly, or the end. There is no
 supervisor in the loop and no summary node; the state has no step log, and
 a node's update overwrites the keys it returns.

 The model's answers and the handlers' effects are parameters: the router's
 reply, one reply per routing call, and a function giving the state a
 handler leaves behind.
 */
module LegacyGraph {
  import opened Wrappers
  import opened Text

  /** The state of `graph.py`: `route` is whatever text the router stored. */
  datatype LegacyState = LegacyState(
    lastUserMessage: Option<string>,
    meetingName: Option<string>,
    transcriptPath: Option<string>,
    transcript: Option<string>,
    summary: Option<string>,
    todo: Option<string>,
    feedback: Option<string>,
    notionParentId: Option<string>,
    route: Option<string>,
    nextStep: Option<string>)

  datatype LegacyNode = Router | ZoomHandler | DebriefHandler | NotionHandler

  /** Where a choice sends the run: a node, or `END`. */
  datatype Destination = To(node: LegacyNode) | Finish

  /** `content.strip().lower()`: the decision text of a model reply. */
  function Normalise(reply: string): string {
    Lower(Strip(reply))
  }

  /** Normal form: no capitals, and no whitespace at either end. */
  predicate IsNormal(d: string) {
    && (forall i :: 0 <= i < |d| ==> !('A' <= d[i] <= 'Z'))
    && (|d| > 0 ==> !IsPyWhitespace(d[0]) && !IsPyWhitespace(d[|d| - 1]))
  }

  /**
   A decision is in normal form, since lower-casing turns no character into
   whitespace.
   */
  lemma NormalForm(reply: string)
    ensures IsNormal(Normalise(reply))
  {
    var t := Strip(reply);
    assert Normalise(reply) == Lower(t);
    LowerNormal(t);
  }

  /** Lower-casing a text with no whitespace at its ends leaves none there, and no capitals anywhere. */
  lemma LowerNormal(t: string)
    requires |t| > 0 ==> !IsPyWhitespace(t[0]) && !IsPyWhitespace(t[|t| - 1])
    ensures IsNormal(Lower(t))
  {
    if |t| > 0 {
      LowerKeepsNonWhitespace(t[0]);
      LowerKeepsNonWhitespace(t[|t| - 1]);
    }
  }

  /** Lower-casing turns no character into whitespace. */
  lemma LowerKeepsNonWhitespace(c: char)
    requires !IsPyWhitespace(c)
    ensures !IsPyWhitespace(AsciiLower(c))
  {
  }

  /** A decision is already normal: normalising it again changes nothing. */
  lemma NormaliseIdempotent(reply: string)
    ensures Normalise(Normalise(reply)) == Normalise(reply)
  {
    var d := Normalise(reply);
    NormalForm(reply);
    NormaliseNormal(d);
  }

  /**
   The `targets` table: the three handler labels lead to the handler of that
   name, `end` leads straight to `END`, and any other choice is not in the
   table.
   */
  function Targets(choice: string): (t: Option<Destination>)
    ensures t.Some? <==> choice == "zoom" || choice == "debrief" || choice == "notion" || choice == "end"
    ensures t == Some(Finish) <==> choice == "end"
    ensures t.Some? && t.value.To? ==> t.value.node != Router
  {
    if choice == "zoom" then Some(To(ZoomHandler))
    else if choice == "debrief" then Some(To(DebriefHandler))
    else if choice == "notion" then Some(To(NotionHandler))
    else if choice == "end" then Some(Finish)
    else None
  }

  /** `router_node`: every key kept, `route` set to the normalised reply. */
  function RouterNode(s: LegacyState, reply: string): (r: LegacyState)
    ensures r.route == Some(Normalise(reply))
    ensures r.(route := s.route) == s
  {
    s.(route := Some(Normalise(reply)))
  }

  /**
   `routing_function`: the choice the next node is chosen by. It returns a
   choice only; the state is read for the prompt and never written.
   */
  function RoutingFunction(s: LegacyState, reply: string): (choice: string)
    ensures Normalise(choice) == choice
  {
    NormaliseIdempotent(reply);
    Normalise(reply)
  }

  /** One node execution and the state after it. */
  datatype LegacyStep = LegacyStep(node: LegacyNode, after: LegacyState)

  /** `END` reached; a choice outside the table, on which LangGraph's lookup in `targets` raises and the run ends; or no reply left for the next routing call. */
  datatype LegacyOutcome = ReachedEnd | InvalidRoute(choice: string) | OutOfReplies

  datatype LegacyTrace = LegacyTrace(steps: seq<LegacyStep>, outcome: LegacyOutcome)

  /** The handler effects: the state a handler leaves behind. */
  type Effect = (LegacyNode, LegacyState) -> LegacyState

  /** `step` ahead of a trace. */
  function PrependLegacy(step: LegacyStep, t: LegacyTrace): (r: LegacyTrace)
    ensures |r.steps| == |t.steps| + 1 && r.steps[0] == step && r.steps[1..] == t.steps
    ensures r.outcome == t.outcome
  {
    LegacyTrace([step] + t.steps, t.outcome)
  }

  /**
   The run from a routing decision on: follow the choice through `targets`;
   at a handler, run it and ask for the next choice.
   */
  function Continue(s: LegacyState, choice: string, replies: seq<string>, effect: Effect): (t: LegacyTrace)
    decreases |replies|
  {
    match Targets(choice)
    case None => LegacyTrace([], InvalidRoute(choice))
    case Some(Finish) => LegacyTrace([], ReachedEnd)
    case Some(To(n)) =>
      var next := effect(n, s);
      var step := LegacyStep(n, next);
      if |replies| == 0 then LegacyTrace([step], OutOfReplies)
      else PrependLegacy(step, Continue(next, RoutingFunction(next, replies[0]), replies[1..], effect))
  }

  /** A whole run: `START` to the router, then the route it stored. */
  function LegacyRun(s: LegacyState, routerReply: string, replies: seq<string>, effect: Effect): (t: LegacyTrace)
    ensures |t.steps| >= 1 && t.steps[0] == LegacyStep(Router, RouterNode(s, routerReply))
  {
    var r := RouterNode(s, routerReply);
    PrependLegacy(LegacyStep(Router, r), Continue(r, r.route.value, replies, effect))
  }

  /** No step of `steps` is the router. */
  predicate Handlers(steps: seq<LegacyStep>) {
    forall k :: 0 <= k < |steps| ==> steps[k].node != Router
  }

  /** Each step leaves the state its node's effect gives from the state before it, the first from `s`. */
  predicate EffectChain(s: LegacyState, steps: seq<LegacyStep>, effect: Effect) {
    && (|steps| > 0 ==> steps[0].after == effect(steps[0].node, s))
    && (forall k :: 0 < k < |steps| ==> steps[k].after == effect(steps[k].node, steps[k - 1].after))
  }

  /**
   After the router, every step is a handler; a run that stops on an invalid
   choice stops on a choice outside the table; and there is at most one
   handler per reply, plus one.
   */
  lemma {:induction false} ContinueShape(s: LegacyState, choice: string, replies: seq<string>, effect: Effect)
    ensures var t := Continue(s, choice, replies, effect);
      && |t.steps| <= |replies| + 1
      && Handlers(t.steps)
      && (t.outcome.InvalidRoute? ==> Targets(t.outcome.choice).None?)
      && (t.outcome == OutOfReplies ==> |t.steps| == |replies| + 1)
    decreases |replies|
  {
    match Targets(choice)
    case None =>
    case Some(Finish) =>
    case Some(To(n)) =>
      var next := effect(n, s);
      if |replies| > 0 {
        var t := Continue(s, choice, replies, effect);
        var rest := Continue(next, RoutingFunction(next, replies[0]), replies[1..], effect);
        ContinueShape(next, RoutingFunction(next, replies[0]), replies[1..], effect);
        assert t == PrependLegacy(LegacyStep(n, next), rest);
        HandlersCons(LegacyStep(n, next), rest.steps);
      }
  }

  lemma HandlersCons(step: LegacyStep, steps: seq<LegacyStep>)
    requires step.node != Router && Handlers(steps)
    ensures Handlers([step] + steps)
  {
    var all := [step] + steps;
    forall k | 0 < k < |all| ensures all[k].node != Router {
      assert all[k] == steps[k - 1];
    }
  }

  /** Every step after the router is its handler's effect on the state before it. */
  lemma {:induction false} ContinueEffects(s: LegacyState, choice: string, replies: seq<string>, effect: Effect)
    ensures EffectChain(s, Continue(s, choice, replies, effect).steps, effect)
    decreases |replies|
  {
    match Targets(choice)
    case None =>
    case Some(Finish) =>
    case Some(To(n)) =>
      var next := effect(n, s);
      if |replies| > 0 {
        var t := Continue(s, choice, replies, effect);
        var rest := Continue(next, RoutingFunction(next, replies[0]), replies[1..], effect);
        ContinueEffects(next, RoutingFunction(next, replies[0]), replies[1..], effect);
        assert t == PrependLegacy(LegacyStep(n, next), rest);
        EffectChainCons(s, LegacyStep(n, next), rest.steps, effect);
      }
  }

  lemma EffectChainCons(s: LegacyState, step: LegacyStep, steps: seq<LegacyStep>, effect: Effect)
    requires step.after == effect(step.node, s) && EffectChain(step.after, steps, effect)
    ensures EffectChain(s, [step] + steps, effect)
  {
    var all := [step] + steps;
    forall k | 0 < k < |all| ensures all[k].after == effect(all[k].node, all[k - 1].after) {
      assert all[k] == steps[k - 1];
      if k > 1 {
        assert all[k - 1] == steps[k - 2];
      }
    }
  }

  /**
   The router runs exactly once, first; every later step is a handler that
   follows the one before it directly, with no node in between; the run is
   at most one step longer than the replies it was given.
   */
  lemma RouterRunsOnceFirst(s: LegacyState, routerReply: string, replies: seq<string>, effect: Effect)
    ensures var t := LegacyRun(s, routerReply, replies, effect);
      && t.steps[0].node == Router
      && (forall k :: 0 < k < |t.steps| ==> t.steps[k].node != Router)
      && (forall k :: 1 < k < |t.steps| ==> t.steps[k].after == effect(t.steps[k].node, t.steps[k - 1].after))
      && |t.steps| <= |replies| + 2
  {
    var r := RouterNode(s, routerReply);
    var rest := Continue(r, r.route.value, replies, effect);
    ContinueShape(r, r.route.value, replies, effect);
    ContinueEffects(r, r.route.value, replies, effect);
    var t := LegacyRun(s, routerReply, replies, effect);
    assert t == PrependLegacy(LegacyStep(Router, r), rest);
    forall k | 0 < k < |t.steps| ensures t.steps[k].node != Router {
      assert t.steps[k] == rest.steps[k - 1];
    }
    forall k | 1 < k < |t.steps|
      ensures t.steps[k].after == effect(t.steps[k].node, t.steps[k - 1].after)
    {
      assert t.steps[k] == rest.steps[k - 1] && t.steps[k - 1] == rest.steps[k - 2];
    }
  }

  /**
   When no handler touches `route`, every state of the run carries the
   router's one decision: the routing calls after the handlers choose the
   next node without recording it.
   */
  lemma {:induction false} RouteKeepsFirstDecision(s: LegacyState, choice: string, replies: seq<string>, effect: Effect)
    requires forall n, st :: effect(n, st).route == st.route
    ensures RouteStays(Continue(s, choice, replies, effect).steps, s.route)
    decreases |replies|
  {
    var t := Continue(s, choice, replies, effect);
    match Targets(choice)
    case None =>
    case Some(Finish) =>
    case Some(To(n)) =>
      var next := effect(n, s);
      assert next.route == s.route;
      if |replies| > 0 {
        var c := RoutingFunction(next, replies[0]);
        var rest := Continue(next, c, replies[1..], effect);
        RouteKeepsFirstDecision(next, c, replies[1..], effect);
        assert t.steps == [LegacyStep(n, next)] + rest.steps;
        RouteStaysCons(LegacyStep(n, next), rest.steps, s.route);
      }
  }

  /** Every step of `steps` leaves `route` as it is. */
  predicate RouteStays(steps: seq<LegacyStep>, route: Option<string>) {
    forall k :: 0 <= k < |steps| ==> steps[k].after.route == route
  }

  lemma RouteStaysCons(step: LegacyStep, steps: seq<LegacyStep>, route: Option<string>)
    requires step.after.route == route && RouteStays(steps, route)
    ensures RouteStays([step] + steps, route)
  {
    var all := [step] + steps;
    forall k | 0 < k < |all| ensures all[k].after.route == route {
      assert all[k] == steps[k - 1];
    }
  }

  /** The same over a whole run: every state holds the router's normalised reply. */
  lemma RunKeepsRouterDecision(s: LegacyState, routerReply: string, replies: seq<string>, effect: Effect)
    requires forall n, st :: effect(n, st).route == st.route
    ensures RouteStays(LegacyRun(s, routerReply, replies, effect).steps, Some(Normalise(routerReply)))
  {
    var r := RouterNode(s, routerReply);
    var rest := Continue(r, r.route.value, replies, effect);
    RouteKeepsFirstDecision(r, r.route.value, replies, effect);
    RouteStaysCons(LegacyStep(Router, r), rest.steps, r.route);
  }

  /** The node sequence of a trace. */
  function LegacyNodes(steps: seq<LegacyStep>): (ns: seq<LegacyNode>)
    ensures |ns| == |steps| && forall k :: 0 <= k < |steps| ==> ns[k] == steps[k].node
  {
    seq(|steps|, k requires 0 <= k < |steps| => steps[k].node)
  }

  /** A reply already in normal form is its own decision. */
  lemma NormaliseNormal(w: string)
    requires IsNormal(w)
    ensures Normalise(w) == w
  {
    assert Normalise(w) == Lower(Strip(w));
    StripStartKeeps(w);
    StripEndKeeps(w);
    assert Strip(w) == w;
    LowerKeeps(w);
  }

  lemma StripStartKeeps(w: string)
    requires |w| > 0 ==> !IsPyWhitespace(w[0])
    ensures StripStart(w) == w
  {
  }

  lemma StripEndKeeps(w: string)
    requires |w| > 0 ==> !IsPyWhitespace(w[|w| - 1])
    ensures StripEnd(w) == w
  {
  }

  lemma LowerKeeps(w: string)
    requires forall i :: 0 <= i < |w| ==> !('A' <= w[i] <= 'Z')
    ensures Lower(w) == w
  {
    var d := Lower(w);
    assert forall i :: 0 <= i < |w| ==> d[i] == w[i];
  }

  /** The four choices, as the model is asked to write them, are already normal. */
  lemma ChoicesAreNormal()
    ensures Normalise("zoom") == "zoom" && Normalise("debrief") == "debrief"
    ensures Normalise("notion") == "notion" && Normalise("end") == "end"
  {
    HandlerChoicesAreNormal();
    EndIsNormal();
  }

  lemma EndIsNormal()
    ensures Normalise("end") == "end"
  {
    NormaliseNormal("end");
  }

  lemma HandlerChoicesAreNormal()
    ensures Normalise("zoom") == "zoom" && Normalise("debrief") == "debrief" && Normalise("notion") == "notion"
  {
    ZoomIsNormal();
    DebriefIsNormal();
    NotionIsNormal();
  }

  lemma ZoomIsNormal()
    ensures Normalise("zoom") == "zoom"
  {
    NormaliseNormal("zoom");
  }

  lemma DebriefIsNormal()
    ensures Normalise("debrief") == "debrief"
  {
    NormaliseNormal("debrief");
  }

  lemma NotionIsNormal()
    ensures Normalise("notion") == "notion"
  {
    NormaliseNormal("notion");
  }

  /** A handler choice with a reply left: the handler runs, and the reply picks what follows. */
  lemma HandlerThen(s: LegacyState, choice: string, replies: seq<string>, effect: Effect)
    requires Targets(choice).Some? && Targets(choice).value.To? && |replies| > 0
    ensures var n := Targets(choice).value.node;
      Continue(s, choice, replies, effect)
        == PrependLegacy(LegacyStep(n, effect(n, s)), Continue(effect(n, s), Normalise(replies[0]), replies[1..], effect))
  {
  }

  /**
   Handler to handler: a router choosing `zoom`, then a routing call
   answering `debrief`, then one answering `end`, runs zoom and debrief back
   to back and reaches `END`; no supervisor or summary node runs between or
   after them.
   */
  lemma ZoomThenDebriefDirectly(s: LegacyState, routerReply: string, replies: seq<string>, effect: Effect)
    requires Normalise(routerReply) == "zoom" && replies == ["debrief", "end"]
    ensures var t := LegacyRun(s, routerReply, replies, effect);
      LegacyNodes(t.steps) == [Router, ZoomHandler, DebriefHandler] && t.outcome == ReachedEnd
  {
    var r := RouterNode(s, routerReply);
    ZoomRow(replies);
    var first := ZoomThenDebrief(r, Normalise(routerReply), replies, effect);
    RunAfterRouter(s, routerReply, replies, effect);
    NodesAfterRouter(LegacyStep(Router, r), first.steps[0], first.steps[1]);
  }

  /** A run is the router's step ahead of the run from the decision it stored. */
  lemma RunAfterRouter(s: LegacyState, routerReply: string, replies: seq<string>, effect: Effect)
    ensures var r := RouterNode(s, routerReply);
      LegacyRun(s, routerReply, replies, effect)
        == PrependLegacy(LegacyStep(Router, r), Continue(r, Normalise(routerReply), replies, effect))
  {
  }

  lemma NodesAfterRouter(a: LegacyStep, b: LegacyStep, c: LegacyStep)
    ensures LegacyNodes([a] + [b, c]) == [a.node, b.node, c.node]
  {
    assert [a] + [b, c] == [a, b, c];
  }

  /** From a choice that targets zoom, with a `debrief` reply and then `end` left: zoom runs, then debrief, then `END`. */
  lemma ZoomThenDebrief(r: LegacyState, choice: string, replies: seq<string>, effect: Effect) returns (t: LegacyTrace)
    requires Targets(choice) == Some(To(ZoomHandler))
    requires |replies| > 0 && Normalise(replies[0]) == "debrief" && replies[1..] == ["end"]
    ensures t == Continue(r, choice, replies, effect)
    ensures var z := effect(ZoomHandler, r);
      t == LegacyTrace([LegacyStep(ZoomHandler, z), LegacyStep(DebriefHandler, effect(DebriefHandler, z))], ReachedEnd)
  {
    var z := effect(ZoomHandler, r);
    var mid := DebriefThenEnd(z, replies[1..], effect);
    HandlerThen(r, choice, replies, effect);
    t := PrependLegacy(LegacyStep(ZoomHandler, z), mid);
    PrependToOne(LegacyStep(ZoomHandler, z), LegacyStep(DebriefHandler, effect(DebriefHandler, z)), ReachedEnd);
  }

  lemma PrependToOne(a: LegacyStep, b: LegacyStep, outcome: LegacyOutcome)
    ensures PrependLegacy(a, LegacyTrace([b], outcome)) == LegacyTrace([a, b], outcome)
  {
    assert [a] + [b] == [a, b];
  }

  lemma ZoomRow(replies: seq<string>)
    requires replies == ["debrief", "end"]
    ensures Targets("zoom") == Some(To(ZoomHandler))
    ensures Normalise(replies[0]) == "debrief" && replies[1..] == ["end"]
  {
    DebriefIsNormal();
  }

  /** From a `debrief` choice with one routing reply `end` left: debrief runs, then `END`. */
  lemma DebriefThenEnd(z: LegacyState, replies: seq<string>, effect: Effect) returns (t: LegacyTrace)
    requires replies == ["end"]
    ensures t == Continue(z, "debrief", replies, effect)
    ensures t == LegacyTrace([LegacyStep(DebriefHandler, effect(DebriefHandler, z))], ReachedEnd)
  {
    var d := effect(DebriefHandler, z);
    DebriefRow(replies);
    assert Continue(d, "end", [], effect) == LegacyTrace([], ReachedEnd);
    HandlerThen(z, "debrief", replies, effect);
    t := Continue(z, "debrief", replies, effect);
  }

  lemma DebriefRow(replies: seq<string>)
    requires replies == ["end"]
    ensures Targets("debrief") == Some(To(DebriefHandler)) && Targets("end") == Some(Finish)
    ensures Normalise(replies[0]) == "end" && replies[1..] == []
  {
    EndIsNormal();
  }

  /** ` END` and a line feed normalise to `end`. */
  lemma PaddedEndNormalises()
    ensures Normalise(" END\n") == "end"
  {
    PaddedEndStrips();
    CapitalEndLowers();
  }

  lemma PaddedEndStrips()
    ensures Strip(" END\n") == "END"
  {
    var s: string := " END\n";
    var t: string := "END\n";
    var u: string := "END";
    assert s[1..] == t;
    assert StripStart(t) == t by {
      assert !IsPyWhitespace(t[0]);
    }
    assert StripStart(s) == t by {
      assert IsPyWhitespace(s[0]);
    }
    assert t[..3] == u;
    assert StripEnd(u) == u by {
      assert !IsPyWhitespace(u[2]);
    }
    assert StripEnd(t) == u by {
      assert IsPyWhitespace(t[3]);
    }
  }

  lemma CapitalEndLowers()
    ensures Lower("END") == "end"
  {
    var d := Lower("END");
    assert d[0] == 'e' && d[1] == 'n' && d[2] == 'd';
  }

  /**
   A reply padded and in capitals still counts: ` END` followed by a line
   feed is normalised to `end`, and the router's decision takes the run
   straight to `END`.
   */
  lemma PaddedEndFinishes(s: LegacyState, replies: seq<string>, effect: Effect)
    ensures var t := LegacyRun(s, " END\n", replies, effect);
      t.steps == [LegacyStep(Router, s.(route := Some("end")))] && t.outcome == ReachedEnd
  {
    PaddedEndNormalises();
    var r := RouterNode(s, " END\n");
    assert r.route == Some("end");
    assert Continue(r, "end", replies, effect) == LegacyTrace([], ReachedEnd);
  }

  /**
   A reply outside the four choices, however close (`zoom.` here), is not in
   the table: the run stops after the router with that choice.
   */
  lemma UnknownChoiceStops(s: LegacyState, replies: seq<string>, effect: Effect)
    ensures var t := LegacyRun(s, "zoom.", replies, effect);
      |t.steps| == 1 && t.outcome == InvalidRoute("zoom.")
  {
    ZoomDotIsUnknown();
    InvalidChoiceStops(s, "zoom.", replies, effect);
  }

  lemma ZoomDotIsUnknown()
    ensures Normalise("zoom.") == "zoom." && Targets("zoom.").None?
  {
    NormaliseNormal("zoom.");
  }

  /** A router decision outside the table stops the run right after the router, naming that decision. */
  lemma InvalidChoiceStops(s: LegacyState, routerReply: string, replies: seq<string>, effect: Effect)
    requires Targets(Normalise(routerReply)).None?
    ensures var t := LegacyRun(s, routerReply, replies, effect);
      |t.steps| == 1 && t.outcome == InvalidRoute(Normalise(routerReply))
  {
    RunAfterRouter(s, routerReply, replies, effect);
  }
}
