/** The resolved state graph of a workflow and the queries over it
    (`_Graph` and the query methods in src/panopticon/core/workflow.py). */
module Workflows {
  import opened Models

  /** What a resolved state class contributes to the graph. */
  datatype StateInfo = StateInfo(
    terminal: bool, initial: bool, turnOnEnter: Actor, advancedBy: Actor,
    responsibilities: seq<Responsibility>)

  /** The resolved graph of one workflow. */
  datatype Graph = Graph(
    states: map<string, StateInfo>,
    transitions: map<string, set<string>>,
    operations: map<string, map<string, string>>,
    initial: string)
  {
    /** Every edge and every operation stays inside the graph, and everything non-terminal can be
        dropped. */
    ghost predicate Valid() {
      && transitions.Keys == states.Keys == operations.Keys
      && DROPPED in states && COMPLETE in states
      && states[DROPPED].terminal && states[COMPLETE].terminal
      && initial in states && states[initial].initial && !states[initial].terminal
      && (forall l {:trigger ValidState(l)} :: l in states ==> ValidState(l))
    }

    ghost predicate ValidState(l: string)
      requires l in states && l in transitions && l in operations
    {
      && transitions[l] <= states.Keys
      && (forall op :: op in operations[l] ==> operations[l][op] in transitions[l])
      && (states[l].terminal ==> transitions[l] == {} && operations[l] == map[])
      && (!states[l].terminal ==>
            DROPPED in transitions[l] && "drop" in operations[l] && operations[l]["drop"] == DROPPED)
      && (forall r :: r in states[l].responsibilities ==> r.status.Pending? && r.comment.None?)
    }

    function Advance(l: string): Option<string> {
      if l in operations && "advance" in operations[l] then Some(operations[l]["advance"]) else None
    }
  }

  type WorkflowTable = map<string, Graph>

  ghost predicate ValidTable(wfs: WorkflowTable) {
    forall w {:trigger wfs[w].Valid()} :: w in wfs ==> wfs[w].Valid()
  }

  /** Terminality as the service decides it: through the workflow when the state is known there,
      otherwise by the built-in labels. */
  predicate IsTerminal(wfs: WorkflowTable, t: Task) {
    if t.workflow in wfs && t.state in wfs[t.workflow].states then
      wfs[t.workflow].states[t.state].terminal
    else
      t.state in TERMINAL_LABELS
  }

  ghost predicate AdvanceChain(g: Graph, order: seq<string>) {
    forall i :: 0 <= i < |order| - 1 ==>
      && order[i] in g.states && !g.states[order[i]].terminal
      && g.Advance(order[i]) == Some(order[i + 1])
  }

  lemma AdvanceStaysInGraph(g: Graph, l: string)
    requires g.Valid() && l in g.states
    ensures g.Advance(l).Some? ==> g.Advance(l).value in g.states
  {
    assert g.ValidState(l);
  }

  /** A walk of the happy path so far, and the label it goes on to. */
  ghost predicate Walk(g: Graph, order: seq<string>, next: Option<string>) {
    && (order == [] ==> next == Some(g.initial))
    && (order != [] ==> order[0] == g.initial)
    && (next.Some? ==> next.value in g.states)
    && Distinct(order) && AdvanceChain(g, order)
    && (forall i {:trigger order[i]} :: 0 <= i < |order| ==> order[i] in g.states)
    && (order != [] ==> var last := order[|order| - 1]; !g.states[last].terminal && next == g.Advance(last))
  }

  /** The walk with one more label. */
  lemma WalkOn(g: Graph, order: seq<string>, current: string)
    requires g.Valid() && Walk(g, order, Some(current)) && current !in order
    ensures var longer := order + [current];
            && longer[0] == g.initial && Distinct(longer) && AdvanceChain(g, longer)
            && (forall i {:trigger longer[i]} :: 0 <= i < |longer| ==> longer[i] in g.states)
            && (!g.states[current].terminal ==> Walk(g, longer, g.Advance(current)))
  {
    var longer := order + [current];
    AdvanceStaysInGraph(g, current);
    forall i | 0 <= i < |longer| - 1
      ensures longer[i] in g.states && !g.states[longer[i]].terminal && g.Advance(longer[i]) == Some(longer[i + 1])
    {
      assert longer[i] == order[i];
    }
  }

  /** The happy path: follow `advance` edges from the initial state. */
  method OrderedPhases(g: Graph) returns (order: seq<string>)
    requires g.Valid()
    ensures order != [] && order[0] == g.initial
    ensures Distinct(order)
    ensures forall i :: 0 <= i < |order| ==> order[i] in g.states
    ensures AdvanceChain(g, order)
    // the walk is maximal: it stops at a terminal state, at a state without `advance`, or where the
    // next edge would close a cycle
    ensures var last := order[|order| - 1];
            g.states[last].terminal || g.Advance(last).None? || g.Advance(last).value in order
  {
    order := [];
    var next := Some(g.initial);
    ghost var left := g.states.Keys;
    while next.Some? && next.value !in order
      invariant Walk(g, order, next)
      invariant forall l {:trigger l in left} :: l in g.states && l !in order ==> l in left
      decreases left
    {
      var current := next.value;
      WalkOn(g, order, current);
      assert current in left;
      order, left := order + [current], left - {current};
      if g.states[current].terminal {
        return;
      }
      next := g.Advance(current);
    }
  }
}
