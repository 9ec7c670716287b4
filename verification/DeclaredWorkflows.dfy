/** What a workflow author gets for what was declared: how tasks move on the graph that was resolved from
    the state classes, said in the terms of the declarations alone
    (`Workflow._graph`, `_resolve_operations` and the task lifecycle in
    src/panopticon/core/workflow.py). */
module DeclaredWorkflows {
  import opened Models
  import opened Workflows
  import opened WorkflowResolution
  import Lifecycle

  /** The graph shows the class as one of its states. A graph that `Describes` declarations, as a
      resolved one does, shows exactly their needed classes. */
  ghost predicate Shown(p: Program, c: Cls, g: Graph) {
    p.Valid() && c in p.classes && DescribesClass(p, c, g)
  }

  /** A declared target that means the state with this label. */
  ghost predicate Means(p: Program, t: Target, l: string) {
    t == LabelRef(l) || (t.ClassRef? && t.cls in p.classes && p.classes[t.cls].name == l)
  }

  /** The class declares a way to the label, or it is the way out that every unfinished state has. */
  ghost predicate DeclaresWayTo(p: Program, c: Cls, l: string)
    requires c in p.classes
  {
    && p.classes[c].kind != Terminal
    && (l == DROPPED || exists t :: t in p.classes[c].transitions && Means(p, t, l))
  }

  // ---- states and edges -----------------------------------------------------------------------

  /** The graph carries what the class of a state declares. */
  lemma StatesAreDeclared(p: Program, c: Cls, g: Graph)
    requires Shown(p, c, g)
    ensures var s := p.classes[c];
            && s.name in g.states && s.name != "" && !s.isAbstract
            && g.states[s.name].responsibilities == s.responsibilities
            && Some(g.states[s.name].turnOnEnter) == s.turnOnEnter
            && g.states[s.name].advancedBy == s.advancedBy
            && (g.states[s.name].terminal <==> s.kind == Terminal)
            && (g.states[s.name].initial <==> s.kind == InitialState)
  {
  }

  /** A label is a destination in the graph exactly when the class declares a way to it. */
  lemma EdgesAreDeclared(p: Program, c: Cls, g: Graph, l: string)
    requires Shown(p, c, g)
    ensures l in g.transitions[p.classes[c].name] <==> DeclaresWayTo(p, c, l)
  {
    var s := p.classes[c];
    var ts := s.transitions + [ClassRef(DROPPED_CLASS)];
    if !s.kind.Terminal? {
      assert s.Accumulated() == ts;
      DroppedIsDestination(p, c);
      if t :| t in ts && p.LabelOf(t) == l {
        assert t in s.transitions || t == ClassRef(DROPPED_CLASS);
      }
      forall t | t in s.transitions && Means(p, t, l)
        ensures l in Destinations(p, c)
      {
        assert t in ts && p.LabelOf(t) == l;
      }
    }
  }

  // ---- the gate -------------------------------------------------------------------------------

  /** A task in a declared state can be moved by the gate exactly along a declared way, and to anything
      but DROPPED only when nothing that the state's class declares is still pending on its entry. */
  lemma DeclaredGate(p: Program, c: Cls, g: Graph, t: Task, to: string,
                     now: string, trigger: Option<string>, note: Option<string>)
    requires Shown(p, c, g) && g.Valid() && Lifecycle.HistoryOk(g, t) && t.state == p.classes[c].name
    ensures var declared, promised := p.classes[c].responsibilities, t.history[|t.history| - 1].responsibilities;
            && |promised| == |declared|
            && (forall i :: 0 <= i < |declared| ==>
                  promised[i].key == declared[i].key && promised[i].description == declared[i].description)
            && (Lifecycle.ApplyTransition(g, t, to, now, trigger, note).Ok? <==>
                  && DeclaresWayTo(p, c, to)
                  && (to == DROPPED || forall i :: 0 <= i < |declared| ==> promised[i].status != Pending))
  {
    EdgesAreDeclared(p, c, g, to);
    var e := t.history[|t.history| - 1];
    assert e in t.history && Lifecycle.EntryOk(g, e);
    assert Lifecycle.HasOutstanding(e.responsibilities) <==>
           exists i :: 0 <= i < |e.responsibilities| && e.responsibilities[i].status == Pending by {
      if i :| 0 <= i < |e.responsibilities| && e.responsibilities[i].status == Pending {
        assert Lifecycle.IsOutstanding(e.responsibilities[i]);
      }
    }
  }

  /** Entering a state promises all that its class declares, none of it settled, and hands the turn to
      the party it names. */
  lemma EntryPromises(p: Program, d: Cls, g: Graph, t: Task, now: string, trigger: Option<string>,
                      note: Option<string>)
    requires Shown(p, d, g) && g.Valid() && Lifecycle.HistoryOk(g, t)
    requires Lifecycle.ApplyTransition(g, t, p.classes[d].name, now, trigger, note).Ok?
    ensures var t' := Lifecycle.ApplyTransition(g, t, p.classes[d].name, now, trigger, note).value;
            && |t'.history| == |t.history| + 1 && t'.state == p.classes[d].name
            && t'.history[|t.history|].responsibilities == p.classes[d].responsibilities
            && (forall r :: r in p.classes[d].responsibilities ==> r.status == Pending)
            && Some(t'.turn) == p.classes[d].turnOnEnter
            && Lifecycle.HistoryOk(g, t')
  {
    Lifecycle.ApplyKeepsHistory(g, t, p.classes[d].name, now, trigger, note);
  }

  /** So a task that has just entered a state with declared promises can go nowhere but to DROPPED. */
  lemma PromisesHold(p: Program, d: Cls, g: Graph, t: Task, to: string,
                     now: string, trigger: Option<string>, note: Option<string>)
    requires Shown(p, d, g) && g.Valid() && Lifecycle.HistoryOk(g, t)
    requires Lifecycle.ApplyTransition(g, t, p.classes[d].name, now, trigger, note).Ok?
    requires p.classes[d].responsibilities != [] && p.classes[d].kind != Terminal
    ensures var t' := Lifecycle.ApplyTransition(g, t, p.classes[d].name, now, trigger, note).value;
            t'.history != [] && (Lifecycle.ApplyTransition(g, t', to, now, trigger, note).Ok? <==> to == DROPPED)
  {
    var t' := Lifecycle.ApplyTransition(g, t, p.classes[d].name, now, trigger, note).value;
    EntryPromises(p, d, g, t, now, trigger, note);
    DeclaredGate(p, d, g, t', to, now, trigger, note);
    assert p.classes[d].responsibilities[0] in p.classes[d].responsibilities;
  }

  // ---- verbs ----------------------------------------------------------------------------------

  /** The class declares the verb last at position `i`. */
  ghost predicate DeclaresLastAt(p: Program, c: Cls, verb: string, i: nat)
    requires c in p.classes
  {
    var ops := p.classes[c].operations;
    i < |ops| && ops[i].0 == verb && forall j :: i < j < |ops| ==> ops[j].0 != verb
  }

  ghost predicate Declares(p: Program, c: Cls, verb: string)
    requires c in p.classes
  {
    exists op :: op in p.classes[c].operations && op.0 == verb
  }

  /** The state leads to this label and, apart from DROPPED, to no other. */
  ghost predicate OnlyWay(p: Program, c: Cls, to: string)
    requires c in p.classes
  {
    to != DROPPED && DeclaresWayTo(p, c, to) && forall l :: DeclaresWayTo(p, c, l) ==> l == to || l == DROPPED
  }

  ghost predicate RefersWell(p: Program, declared: seq<(string, Target)>) {
    forall op {:trigger op in declared} :: op in declared && op.1.ClassRef? ==> op.1.cls in p.classes
  }

  lemma {:induction false} LastDeclaredAt(p: Program, declared: seq<(string, Target)>, i: nat)
    requires RefersWell(p, declared)
    requires i < |declared| && forall j :: i < j < |declared| ==> declared[j].0 != declared[i].0
    ensures declared[i].0 in LastDeclared(p, declared)
    ensures LastDeclared(p, declared)[declared[i].0] == p.LabelOf(declared[i].1)
  {
    var k := |declared| - 1;
    if i < k {
      assert declared[k].0 != declared[i].0;
      assert RefersWell(p, declared[..k]) by {
        assert forall op :: op in declared[..k] ==> op in declared;
      }
      LastDeclaredAt(p, declared[..k], i);
    }
  }

  lemma {:induction false} LastPosition(declared: seq<(string, Target)>, verb: string, from: nat) returns (i: nat)
    requires from < |declared| && declared[from].0 == verb
    ensures i < |declared| && declared[i].0 == verb
    ensures forall j :: i < j < |declared| ==> declared[j].0 != verb
    decreases |declared| - from
  {
    if j :| from < j < |declared| && declared[j].0 == verb {
      i := LastPosition(declared, verb, j);
    } else {
      i := from;
    }
  }

  lemma DeclaredIsThere(p: Program, declared: seq<(string, Target)>, verb: string)
    requires RefersWell(p, declared)
    ensures verb in LastDeclared(p, declared) <==> exists op :: op in declared && op.0 == verb
  {
    LastDeclaredIsDeclared(p, declared);
    if op :| op in declared && op.0 == verb {
      var i: nat :| i < |declared| && declared[i] == op;
      var last := LastPosition(declared, verb, i);
      LastDeclaredAt(p, declared, last);
    }
  }

  /** An undeclared `advance` is there exactly when a single way leads elsewhere than to DROPPED, and
      leads there. */
  lemma AdvanceIsOnlyWay(p: Program, c: Cls, g: Graph, to: string)
    requires Shown(p, c, g) && p.classes[c].kind != Terminal && !Declares(p, c, "advance")
    ensures var verbs := g.operations[p.classes[c].name];
            "advance" in verbs && verbs["advance"] == to <==> OnlyWay(p, c, to)
  {
    var dests := g.transitions[p.classes[c].name];
    DeclaredIsThere(p, p.classes[c].operations, "advance");
    forall l
      ensures l in dests <==> DeclaresWayTo(p, c, l)
    {
      EdgesAreDeclared(p, c, g, l);
    }
    if OnlyWay(p, c, to) {
      assert dests - {DROPPED} == {to};
    } else if dests - {DROPPED} == {to} {
      assert to in dests - {DROPPED};
      assert forall l :: l in dests ==> l in dests - {DROPPED} || l == DROPPED;
    }
  }

  /** A declared verb leads where its last declaration says. */
  lemma VerbsAreDeclared(p: Program, c: Cls, g: Graph, verb: string, i: nat)
    requires Shown(p, c, g) && p.classes[c].kind != Terminal && DeclaresLastAt(p, c, verb, i)
    ensures var verbs := g.operations[p.classes[c].name];
            verb in verbs && Means(p, p.classes[c].operations[i].1, verbs[verb])
  {
    var op := p.classes[c].operations[i];
    assert op in p.classes[c].operations;
    LastDeclaredAt(p, p.classes[c].operations, i);
    assert p.LabelOf(op.1) in g.transitions[p.classes[c].name];
  }

  /** The other verbs of a state: `drop`, which leads to DROPPED, and none that is not declared. A
      finished state has none at all. */
  lemma NoOtherVerbs(p: Program, c: Cls, g: Graph, verb: string)
    requires Shown(p, c, g)
    ensures var verbs := g.operations[p.classes[c].name];
            && (p.classes[c].kind != Terminal <==> "drop" in verbs)
            && ("drop" in verbs ==> verbs["drop"] == DROPPED)
            && (verb in verbs ==>
                  p.classes[c].kind != Terminal && (Declares(p, c, verb) || verb == "advance" || verb == "drop"))
  {
    DeclaredIsThere(p, p.classes[c].operations, verb);
  }
}
