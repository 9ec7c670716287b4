/** Building a workflow's graph from its declared state classes: the worklist that closes over
    referenced classes, the label resolution and the operation table
    (`Workflow._graph` and `_resolve_operations` in src/panopticon/core/workflow.py).

    A Python class is named by a string key into a finite table of class declarations. */
module WorkflowResolution {
  import opened Models
  import opened Workflows

  type Cls = string

  datatype Target = ClassRef(cls: Cls) | LabelRef(name: string) | Malformed

  datatype Kind = Plain | InitialState | Terminal

  /** One class declaration. `transitions` is what the class and its bases declare, before the
      `DROPPED` edge that every non-terminal state inherits. */
  datatype StateClass = StateClass(
    isAbstract: bool,
    name: string,
    kind: Kind,
    turnOnEnter: Option<Actor>,
    advancedBy: Actor,
    transitions: seq<Target>,
    operations: seq<(string, Target)>,
    responsibilities: seq<Responsibility>)
  {
    /** The graph's entry for this class carries the class's own facts. */
    ghost predicate ShownBy(info: StateInfo) {
      && (info.terminal <==> kind.Terminal?) && (info.initial <==> kind.InitialState?)
      && turnOnEnter == Some(info.turnOnEnter) && info.advancedBy == advancedBy
      && info.responsibilities == responsibilities
    }

    /** Transitions accumulated over the class hierarchy. */
    function Accumulated(): seq<Target> {
      if kind.Terminal? then [] else transitions + [ClassRef(DROPPED_CLASS)]
    }
  }

  const COMPLETE_CLASS: Cls := "Complete"
  const DROPPED_CLASS: Cls := "Dropped"

  datatype Error =
    | AbstractBaseUsed | NoLabel | DuplicateLabel | UnknownState | InvalidTarget | NoTurnOnEnter
    | OperationOffGraph | DropRedirected | InitialNotInitialState | InitialNotResolved

  /** The class table of a program: the two built-in terminals are what core/state.py declares, and
      a class reference always names a class. */
  datatype Program = Program(classes: map<Cls, StateClass>)
  {
    ghost predicate Valid() {
      && COMPLETE_CLASS in classes && DROPPED_CLASS in classes
      && IsBuiltinTerminal(classes[COMPLETE_CLASS], COMPLETE)
      && IsBuiltinTerminal(classes[DROPPED_CLASS], DROPPED)
      && (forall c, t :: c in classes && t in classes[c].transitions && t.ClassRef? ==> t.cls in classes)
      && (forall c, op :: c in classes && op in classes[c].operations && op.1.ClassRef? ==>
            op.1.cls in classes)
      && (forall c, r :: c in classes && r in classes[c].responsibilities ==>
            r.status.Pending? && r.comment.None?)
    }

    ghost predicate IsBuiltinTerminal(s: StateClass, name: string) {
      s.kind.Terminal? && !s.isAbstract && s.name == name && s.turnOnEnter == Some(User)
    }

    ghost predicate References(c: Cls, d: Cls) {
      c in classes && ClassRef(d) in classes[c].Accumulated()
    }

    /** A set of classes that contains every class a non-terminal member refers to. */
    ghost predicate ClosedUnderReferences(s: set<Cls>) {
      forall c, d :: c in s && References(c, d) ==> d in s
    }

    /** Membership in the least closed set around the seeds. */
    ghost predicate Needed(seeds: set<Cls>, c: Cls) {
      forall s: set<Cls> :: seeds <= s && ClosedUnderReferences(s) ==> c in s
    }

    /** The label a target denotes. */
    function LabelOf(t: Target): string
      requires t.ClassRef? ==> t.cls in classes
    {
      match t
      case ClassRef(c) => classes[c].name
      case LabelRef(l) => l
      case Malformed => ""
    }
  }

  /** Labels a class's accumulated transitions lead to. */
  function Destinations(p: Program, c: Cls): set<string>
    requires p.Valid() && c in p.classes
  {
    set t | t in p.classes[c].Accumulated() :: p.LabelOf(t)
  }

  ghost predicate Labelled(p: Program, seeds: set<Cls>, l: string) {
    exists c :: c in p.classes && p.Needed(seeds, c) && p.classes[c].name == l
  }

  ghost predicate GoodTarget(p: Program, seeds: set<Cls>, t: Target) {
    !t.Malformed? && (t.LabelRef? ==> Labelled(p, seeds, t.name))
  }

  ghost predicate GoodOperation(p: Program, c: Cls, op: (string, Target))
    requires p.Valid() && c in p.classes && op in p.classes[c].operations
  {
    p.LabelOf(op.1) in Destinations(p, c) && (op.0 == "drop" ==> p.LabelOf(op.1) == DROPPED)
  }

  /** What a single needed class must satisfy. */
  ghost predicate GoodClass(p: Program, seeds: set<Cls>, c: Cls)
    requires p.Valid() && c in p.classes
  {
    var s := p.classes[c];
    && !s.isAbstract && s.name != "" && s.turnOnEnter.Some?
    && (forall t :: t in s.Accumulated() ==> GoodTarget(p, seeds, t))
    && (!s.kind.Terminal? ==> forall op :: op in s.operations ==> GoodOperation(p, c, op))
  }

  ghost predicate DistinctLabels(p: Program, seeds: set<Cls>) {
    forall c, d | c in p.classes && d in p.classes && p.Needed(seeds, c) && p.Needed(seeds, d) ::
      p.classes[c].name == p.classes[d].name ==> c == d
  }

  ghost predicate GoodInitial(p: Program, seeds: set<Cls>, initial: Target) {
    exists c :: && c in p.classes && p.Needed(seeds, c) && p.classes[c].kind.InitialState?
                && (initial == ClassRef(c) || initial == LabelRef(p.classes[c].name))
  }

  /** The declarations a workflow author must get right, over the least closed class set. */
  ghost predicate WellDeclared(p: Program, seeds: set<Cls>, initial: Target)
    requires p.Valid()
  {
    && (forall c :: c in p.classes && p.Needed(seeds, c) ==> GoodClass(p, seeds, c))
    && DistinctLabels(p, seeds)
    && GoodInitial(p, seeds, initial)
  }

  lemma NeededFollowsReferences(p: Program, seeds: set<Cls>, c: Cls, d: Cls)
    requires p.Needed(seeds, c) && p.References(c, d)
    ensures p.Needed(seeds, d)
  {
  }

  /** `by_label`, filled class by class. `order` is its insertion order. */
  class Builder {
    const program: Program
    var byLabel: map<string, Cls>
    var order: seq<string>

    constructor (program: Program)
      ensures this.program == program && byLabel == map[] && order == []
    {
      this.program := program;
      byLabel, order := map[], [];
    }

    function Registered(): set<Cls>
      reads this
    {
      set l | l in byLabel :: byLabel[l]
    }

    /** Every registered class sits under its own label, is concrete, and has a label. */
    ghost predicate Valid()
      reads this
    {
      && program.Valid()
      && (forall l :: l in byLabel ==>
            && byLabel[l] in program.classes && program.classes[byLabel[l]].name == l
            && l != "" && !program.classes[byLabel[l]].isAbstract)
      && (forall l :: l in byLabel <==> l in order)
    }

    /** Nothing outside the least closed set has been registered. */
    ghost predicate OnlyNeeded(seeds: set<Cls>)
      reads this
    {
      forall l :: l in byLabel ==> program.Needed(seeds, byLabel[l])
    }

    predicate Has(c: Cls)
      reads this
      requires c in program.classes
    {
      var l := program.classes[c].name;
      l in byLabel && byLabel[l] == c
    }

    /** Registration is idempotent and fails exactly for an abstract base, a missing label, or a
        label another class already took. */
    method Register(c: Cls, ghost seeds: set<Cls>, ghost initial: Target) returns (error: Option<Error>)
      requires Valid() && c in program.classes
      requires OnlyNeeded(seeds) && program.Needed(seeds, c)
      modifies this
      ensures Valid() && OnlyNeeded(seeds)
      ensures error.None? ==>
                && Has(c) && byLabel == old(byLabel)[program.classes[c].name := c]
                && (forall l :: l in old(byLabel) ==> byLabel[l] == old(byLabel)[l])
      ensures error.Some? ==> !WellDeclared(program, seeds, initial)
      ensures old(Has(c)) ==> error.None? && byLabel == old(byLabel) && order == old(order)
    {
      var s := program.classes[c];
      if s.isAbstract {
        assert !GoodClass(program, seeds, c);
        return Some(AbstractBaseUsed);
      }
      if s.name == "" {
        assert !GoodClass(program, seeds, c);
        return Some(NoLabel);
      }
      if s.name in byLabel && byLabel[s.name] != c {
        assert !DistinctLabels(program, seeds);
        return Some(DuplicateLabel);
      }
      if s.name !in byLabel {
        order := order + [s.name];
      }
      byLabel := byLabel[s.name := c];
      return None;
    }

    /** Register the references of one class; `found` lists those seen for the first time. */
    method RegisterReferences(c: Cls, ghost seeds: set<Cls>, ghost initial: Target)
      returns (error: Option<Error>, found: seq<Cls>)
      requires Valid() && OnlyNeeded(seeds) && c in program.classes && program.Needed(seeds, c)
      modifies this
      ensures Valid() && OnlyNeeded(seeds)
      ensures error.Some? ==> !WellDeclared(program, seeds, initial)
      ensures error.None? ==>
                && Extends(old(byLabel), byLabel)
                && (forall l {:trigger byLabel[l]} :: l in byLabel ==> l in old(byLabel) || byLabel[l] in found)
                && (forall d {:trigger d in found} :: d in found ==> HasIn(program, byLabel, d))
                && (forall d {:trigger program.References(c, d)} :: program.References(c, d) ==>
                    HasIn(program, byLabel, d))
    {
      found := [];
      var targets := program.classes[c].Accumulated();
      for i := 0 to |targets|
        invariant Valid() && OnlyNeeded(seeds) && Extends(old(byLabel), byLabel)
        invariant forall l {:trigger byLabel[l]} :: l in byLabel ==> l in old(byLabel) || byLabel[l] in found
        invariant forall d {:trigger d in found} :: d in found ==> HasIn(program, byLabel, d)
        invariant forall j :: 0 <= j < i && targets[j].ClassRef? ==>
                    targets[j].cls in program.classes && Has(targets[j].cls)
      {
        if targets[i].ClassRef? {
          var d := targets[i].cls;
          assert program.References(c, d);
          NeededFollowsReferences(program, seeds, c, d);
          var isNew := program.classes[d].name !in byLabel;
          error := Register(d, seeds, initial);
          if error.Some? {
            return;
          }
          if isNew {
            found := found + [d];
          }
        }
      }
      return None, found;
    }

    /** The registered classes in insertion order. */
    method Values() returns (classes: seq<Cls>)
      requires Valid()
      ensures forall l :: l in byLabel ==> byLabel[l] in classes
      ensures forall c :: c in classes ==> c in program.classes && Has(c)
    {
      classes := [];
      for i := 0 to |order|
        invariant forall j :: 0 <= j < i ==> order[j] in byLabel && byLabel[order[j]] in classes
        invariant forall c :: c in classes ==> c in program.classes && Has(c)
      {
        assert order[i] in order;
        classes := classes + [byLabel[order[i]]];
      }
    }

    /** The worklist: register everything the registered classes refer to, directly or not. */
    method Close(ghost seeds: set<Cls>, ghost initial: Target) returns (error: Option<Error>)
      requires Valid() && OnlyNeeded(seeds)
      modifies this
      ensures Valid() && OnlyNeeded(seeds)
      ensures error.Some? ==> !WellDeclared(program, seeds, initial)
      ensures error.None? ==> Extends(old(byLabel), byLabel) && program.ClosedUnderReferences(Registered())
    {
      var pending := Values();
      var visited: set<Cls> := {};
      while pending != []
        invariant Valid() && OnlyNeeded(seeds) && Extends(old(byLabel), byLabel)
        invariant Worklist(program, byLabel, pending, visited)
        decreases program.classes.Keys - visited, |pending|
      {
        ghost var before, todo := byLabel, pending;
        var c := pending[|pending| - 1];
        pending := pending[..|pending| - 1];
        Taken(program, byLabel, todo, visited);
        if c in visited {
          continue;
        }
        assert program.Needed(seeds, c) && c in program.classes.Keys - visited;
        visited := visited + {c};
        var found;
        error, found := RegisterReferences(c, seeds, initial);
        if error.Some? {
          return;
        }
        Visited(program, before, byLabel, pending, visited - {c}, c, found);
        assert visited - {c} + {c} == visited;
        pending := pending + found;
      }
      return None;
    }

    /** `label_of`: the label a target denotes, once every class reference is registered. A class
        reference re-registers its class, which changes nothing. */
    method ResolveTarget(t: Target, ghost seeds: set<Cls>, ghost initial: Target)
      returns (r: Result<string, Error>)
      requires Valid() && OnlyNeeded(seeds)
      requires t.ClassRef? ==> t.cls in program.classes && Has(t.cls)
      modifies this
      ensures Valid() && byLabel == old(byLabel) && order == old(order)
      ensures r.Ok? ==> r.value == program.LabelOf(t) && r.value in byLabel && !t.Malformed?
      ensures r.Err? <==> t.Malformed? || (t.LabelRef? && t.name !in byLabel)
    {
      match t
      case LabelRef(l) =>
        return if l in byLabel then Ok(l) else Err(UnknownState);
      case Malformed =>
        return Err(InvalidTarget);
      case ClassRef(c) =>
        var error := Register(c, seeds, initial);
        return Ok(program.classes[c].name);
    }
  }

  /** Every registration stays as it was. */
  ghost predicate Extends(a: map<string, Cls>, b: map<string, Cls>) {
    forall l {:trigger l in a} {:trigger a[l]} :: l in a ==> l in b && b[l] == a[l]
  }

  /** A class is registered under its own label. */
  ghost predicate HasIn(p: Program, byLabel: map<string, Cls>, c: Cls) {
    c in p.classes && p.classes[c].name in byLabel && byLabel[p.classes[c].name] == c
  }

  /** Every registered class is visited or still to come, and what visited ones refer to is there. */
  ghost predicate Worklist(p: Program, byLabel: map<string, Cls>, pending: seq<Cls>, visited: set<Cls>) {
    && (forall c {:trigger c in pending} :: c in pending ==> HasIn(p, byLabel, c))
    && (forall c {:trigger c in visited} :: c in visited ==> HasIn(p, byLabel, c))
    && (forall l {:trigger byLabel[l]} :: l in byLabel ==> byLabel[l] in visited || byLabel[l] in pending)
    && (forall c, d {:trigger p.References(c, d)} :: c in visited && p.References(c, d) ==> HasIn(p, byLabel, d))
  }

  /** Taking the last class off the list: it is visited already, or it is the only one missing. */
  lemma Taken(p: Program, byLabel: map<string, Cls>, pending: seq<Cls>, visited: set<Cls>)
    requires pending != [] && Worklist(p, byLabel, pending, visited)
    ensures var c := pending[|pending| - 1];
            HasIn(p, byLabel, c) && Worklist(p, byLabel, pending[..|pending| - 1] + [c], visited)
    ensures var (c, rest) := (pending[|pending| - 1], pending[..|pending| - 1]);
            c in visited ==> Worklist(p, byLabel, rest, visited)
  {
    var c, rest := pending[|pending| - 1], pending[..|pending| - 1];
    assert rest + [c] == pending && c in pending;
    forall x {:trigger x in rest} | x in rest
      ensures x in pending
    {
    }
    if c in visited {
      forall l {:trigger byLabel[l]} | l in byLabel
        ensures byLabel[l] in visited || byLabel[l] in rest
      {
        assert byLabel[l] in visited || byLabel[l] in rest + [c];
      }
    }
  }

  lemma Visited(p: Program, before: map<string, Cls>, after: map<string, Cls>, rest: seq<Cls>, visited: set<Cls>,
                c: Cls, found: seq<Cls>)
    requires Worklist(p, before, rest + [c], visited) && Extends(before, after)
    requires forall l {:trigger after[l]} :: l in after ==> l in before || after[l] in found
    requires forall d {:trigger d in found} :: d in found ==> HasIn(p, after, d)
    requires forall d {:trigger p.References(c, d)} :: p.References(c, d) ==> HasIn(p, after, d)
    ensures Worklist(p, after, rest + found, visited + {c})
  {
    forall l {:trigger after[l]} | l in after
      ensures after[l] in visited + {c} || after[l] in rest + found
    {
      if l in before {
        assert before[l] == after[l];
        assert before[l] in visited || before[l] in rest + [c];
      }
    }
    assert c in rest + [c];
    forall x {:trigger x in rest + found} | x in rest + found
      ensures HasIn(p, after, x)
    {
      assert x in rest ==> x in rest + [c];
    }
  }

  /** The registered classes are exactly the least closed set: nothing more was registered, and what
      was registered is closed. */
  lemma RegisteredIsNeeded(b: Builder, seeds: set<Cls>, c: Cls)
    requires b.Valid() && b.OnlyNeeded(seeds) && seeds <= b.Registered()
    requires b.program.ClosedUnderReferences(b.Registered())
    ensures b.program.Needed(seeds, c) <==> c in b.Registered()
  {
  }

  /** `_resolve_operations`: declared operations in order, then the derived `advance` and `drop`. */
  method ResolveOperations(p: Program, c: Cls, dests: set<string>) returns (r: Result<map<string, string>, Error>)
    requires p.Valid() && c in p.classes && dests == Destinations(p, c)
    ensures p.classes[c].kind.Terminal? ==> r == Ok(map[])
    ensures !p.classes[c].kind.Terminal? ==>
              (r.Ok? <==> forall op :: op in p.classes[c].operations ==> GoodOperation(p, c, op))
    ensures !p.classes[c].kind.Terminal? && r.Ok? ==> ResolvedOperations(p, c, dests, r.value)
  {
    if p.classes[c].kind.Terminal? {
      return Ok(map[]);
    }
    var declared := p.classes[c].operations;
    var ops: map<string, string> := map[];
    for i := 0 to |declared|
      invariant forall j :: 0 <= j < i ==> GoodOperation(p, c, declared[j])
      invariant ops == LastDeclared(p, declared[..i])
    {
      var (name, target) := declared[i];
      assert declared[i] in declared;
      assert declared[..i + 1][..i] == declared[..i];
      var dest := p.LabelOf(target);
      if dest !in dests {
        assert !GoodOperation(p, c, declared[i]);
        return Err(OperationOffGraph);
      }
      if name == "drop" && dest != DROPPED {
        assert !GoodOperation(p, c, declared[i]);
        return Err(DropRedirected);
      }
      ops := ops[name := dest];
    }
    assert declared[..|declared|] == declared;
    LastDeclaredIsDeclared(p, declared);
    DroppedIsDestination(p, c);
    if "advance" !in ops {
      var forward := dests - {DROPPED};
      if |forward| == 1 {
        var d :| d in forward;
        assert forward == {d} by { Singleton(forward, d); }
        ops := ops["advance" := d];
      }
    }
    if "drop" !in ops {
      ops := ops["drop" := DROPPED];
    }
    return Ok(ops);
  }

  lemma Singleton<T>(s: set<T>, x: T)
    requires |s| == 1 && x in s
    ensures s == {x}
  {
    assert |s - {x}| == 0;
  }

  /** The operations a state declares; a repeated name keeps its last target. */
  function LastDeclared(p: Program, declared: seq<(string, Target)>): map<string, string>
    requires forall op :: op in declared && op.1.ClassRef? ==> op.1.cls in p.classes
  {
    if declared == [] then map[]
    else
      var op := declared[|declared| - 1];
      LastDeclared(p, declared[..|declared| - 1])[op.0 := p.LabelOf(op.1)]
  }

  lemma {:induction false} LastDeclaredIsDeclared(p: Program, declared: seq<(string, Target)>)
    requires forall op :: op in declared && op.1.ClassRef? ==> op.1.cls in p.classes
    ensures forall n :: n in LastDeclared(p, declared) ==>
              exists op :: op in declared && op.0 == n && p.LabelOf(op.1) == LastDeclared(p, declared)[n]
  {
    if declared == [] {
    } else {
      var k := |declared| - 1;
      LastDeclaredIsDeclared(p, declared[..k]);
      assert declared[k] in declared;
    }
  }

  lemma DroppedIsDestination(p: Program, c: Cls)
    requires p.Valid() && c in p.classes && !p.classes[c].kind.Terminal?
    ensures DROPPED in Destinations(p, c)
  {
    var t := ClassRef(DROPPED_CLASS);
    assert t in p.classes[c].Accumulated();
    assert p.LabelOf(t) == DROPPED;
  }

  /** The operation table of a non-terminal state, stated without the loop: declared verbs keep their
      targets, `advance` is added exactly when it is undeclared and there is one way forward, `drop`
      is always there, and nothing else is. */
  ghost predicate ResolvedOperations(p: Program, c: Cls, dests: set<string>, ops: map<string, string>)
    requires p.Valid() && c in p.classes
  {
    var declared := LastDeclared(p, p.classes[c].operations);
    && (forall n :: n in declared ==> n in ops && ops[n] == declared[n])
    && (forall n :: n in ops ==> ops[n] in dests)
    && "drop" in ops && ops["drop"] == DROPPED
    && ("advance" !in declared ==>
          (forall d :: dests - {DROPPED} == {d} ==> "advance" in ops && ops["advance"] == d)
          && ("advance" in ops ==> dests - {DROPPED} == {ops["advance"]}))
    && ops.Keys <= declared.Keys + {"advance", "drop"}
  }

  /** The graph states and transitions produced from a label table. */
  ghost predicate StatesOf(p: Program, byLabel: map<string, Cls>, states: map<string, StateInfo>,
                           transitions: map<string, set<string>>)
    requires p.Valid()
  {
    && states.Keys == transitions.Keys == byLabel.Keys
    && (forall l :: l in byLabel ==>
          && byLabel[l] in p.classes && p.classes[byLabel[l]].ShownBy(states[l])
          && transitions[l] == Destinations(p, byLabel[l]))
  }

  /** One state's outgoing labels, each checked against the label table. */
  method ResolveDestinations(b: Builder, c: Cls, ghost seeds: set<Cls>, ghost initial: Target)
    returns (r: Result<set<string>, Error>)
    requires b.Valid() && b.OnlyNeeded(seeds) && c in b.Registered()
    requires b.program.ClosedUnderReferences(b.Registered())
    modifies b
    ensures b.Valid() && b.byLabel == old(b.byLabel) && b.order == old(b.order)
    ensures r.Ok? ==> r.value == Destinations(b.program, c) && r.value <= b.byLabel.Keys
    ensures r.Err? ==> exists t :: t in b.program.classes[c].Accumulated() &&
                         (t.Malformed? || (t.LabelRef? && t.name !in b.byLabel))
    ensures r.Ok? ==> forall t :: t in b.program.classes[c].Accumulated() ==>
                        !t.Malformed? && (t.LabelRef? ==> t.name in b.byLabel)
  {
    var p := b.program;
    var targets := p.classes[c].Accumulated();
    var dests: set<string> := {};
    for i := 0 to |targets|
      invariant b.Valid() && b.byLabel == old(b.byLabel) && b.order == old(b.order)
      invariant dests == set t | t in targets[..i] :: p.LabelOf(t)
      invariant dests <= b.byLabel.Keys
      invariant forall t :: t in targets[..i] ==> !t.Malformed? && (t.LabelRef? ==> t.name in b.byLabel)
    {
      assert targets[..i + 1] == targets[..i] + [targets[i]];
      if targets[i].ClassRef? {
        assert p.References(c, targets[i].cls);
      }
      var label_ := b.ResolveTarget(targets[i], seeds, initial);
      if label_.Err? {
        return Err(label_.error);
      }
      dests := dests + {label_.value};
    }
    assert targets[..|targets|] == targets;
    return Ok(dests);
  }

  function Seeds(nested: seq<Cls>): set<Cls> {
    (set c | c in nested) + {COMPLETE_CLASS, DROPPED_CLASS}
  }

  /** Register the nested classes, then the built-in terminals. */
  method RegisterSeeds(b: Builder, nested: seq<Cls>, ghost initial: Target) returns (error: Option<Error>)
    requires b.Valid() && b.byLabel == map[] && (forall c :: c in nested ==> c in b.program.classes)
    modifies b
    ensures b.Valid() && b.OnlyNeeded(Seeds(nested))
    ensures error.None? ==> Seeds(nested) <= b.Registered()
    ensures error.Some? ==> !WellDeclared(b.program, Seeds(nested), initial)
  {
    var all := nested + [COMPLETE_CLASS, DROPPED_CLASS];
    for i := 0 to |all|
      invariant b.Valid() && b.OnlyNeeded(Seeds(nested))
      invariant forall j :: 0 <= j < i ==> b.Has(all[j])
    {
      assert all[i] in Seeds(nested);
      error := b.Register(all[i], Seeds(nested), initial);
      if error.Some? {
        return;
      }
    }
    forall c | c in Seeds(nested)
      ensures c in b.Registered()
    {
      assert c in all;
      assert b.Has(c);
    }
    return None;
  }

  /** The registered classes are the least closed set. */
  ghost predicate Complete(b: Builder, seeds: set<Cls>)
    reads b
  {
    && b.Valid()
    && (forall c :: b.program.Needed(seeds, c) <==> c in b.Registered())
    && b.program.ClosedUnderReferences(b.Registered())
  }

  /** States and edges, label by label in insertion order. */
  method ResolveStates(b: Builder, ghost seeds: set<Cls>, ghost initial: Target)
    returns (error: Option<Error>, states: map<string, StateInfo>, transitions: map<string, set<string>>)
    requires Complete(b, seeds)
    modifies b
    ensures Complete(b, seeds) && b.byLabel == old(b.byLabel)
    ensures error.Some? ==> !WellDeclared(b.program, seeds, initial)
    ensures error.None? ==>
              && StatesOf(b.program, b.byLabel, states, transitions)
              && (forall l :: l in transitions ==> transitions[l] <= b.byLabel.Keys)
              && (forall l :: l in b.byLabel ==>
                    forall t :: t in b.program.classes[b.byLabel[l]].Accumulated() ==>
                      !t.Malformed? && (t.LabelRef? ==> t.name in b.byLabel))
  {
    var p := b.program;
    var order := b.order;
    states, transitions := map[], map[];
    for i := 0 to |order|
      invariant Complete(b, seeds) && b.byLabel == old(b.byLabel) && b.order == order
      invariant states.Keys == transitions.Keys == set l | l in order[..i]
      invariant forall l :: l in states ==>
                  && l in b.byLabel && p.classes[b.byLabel[l]].ShownBy(states[l])
                  && transitions[l] == Destinations(p, b.byLabel[l])
                  && transitions[l] <= b.byLabel.Keys
                  && (forall t :: t in p.classes[b.byLabel[l]].Accumulated() ==>
                        !t.Malformed? && (t.LabelRef? ==> t.name in b.byLabel))
    {
      assert order[i] in order;
      assert order[..i + 1] == order[..i] + [order[i]];
      var c := b.byLabel[order[i]];
      assert c in b.Registered() && p.Needed(seeds, c);
      if p.classes[c].turnOnEnter.None? {
        assert !GoodClass(p, seeds, c);
        return Some(NoTurnOnEnter), map[], map[];
      }
      var dests := ResolveDestinations(b, c, seeds, initial);
      if dests.Err? {
        BadTargetIsIllDeclared(b, seeds, c);
        return Some(dests.error), map[], map[];
      }
      var s := p.classes[c];
      states := states[order[i] := StateInfo(
        s.kind.Terminal?, s.kind.InitialState?, s.turnOnEnter.value, s.advancedBy, s.responsibilities)];
      transitions := transitions[order[i] := dests.value];
    }
    assert order[..|order|] == order;
    return None, states, transitions;
  }

  lemma LabelledMeansRegistered(b: Builder, seeds: set<Cls>, l: string)
    requires Complete(b, seeds)
    ensures Labelled(b.program, seeds, l) <==> l in b.byLabel
  {
    if l in b.byLabel {
      assert b.byLabel[l] in b.Registered();
    }
  }

  lemma BadTargetIsIllDeclared(b: Builder, seeds: set<Cls>, c: Cls)
    requires Complete(b, seeds) && c in b.Registered()
    requires exists t :: t in b.program.classes[c].Accumulated() &&
                         (t.Malformed? || (t.LabelRef? && t.name !in b.byLabel))
    ensures !GoodClass(b.program, seeds, c)
  {
    var t :| t in b.program.classes[c].Accumulated() && (t.Malformed? || (t.LabelRef? && t.name !in b.byLabel));
    if t.LabelRef? {
      LabelledMeansRegistered(b, seeds, t.name);
    }
    assert !GoodTarget(b.program, seeds, t);
  }

  method ResolveAllOperations(b: Builder, ghost seeds: set<Cls>, ghost initial: Target,
                              transitions: map<string, set<string>>)
    returns (error: Option<Error>, operations: map<string, map<string, string>>)
    requires Complete(b, seeds) && transitions.Keys == b.byLabel.Keys
    requires forall l :: l in transitions ==> transitions[l] == Destinations(b.program, b.byLabel[l])
    ensures error.Some? ==> !WellDeclared(b.program, seeds, initial)
    ensures error.None? ==>
              && operations.Keys == b.byLabel.Keys
              && (forall l :: l in operations ==> OperationsOf(b.program, b.byLabel[l], operations[l]))
              && (forall l :: l in operations && !b.program.classes[b.byLabel[l]].kind.Terminal? ==>
                    forall op :: op in b.program.classes[b.byLabel[l]].operations ==>
                      GoodOperation(b.program, b.byLabel[l], op))
  {
    var p := b.program;
    var order := b.order;
    operations := map[];
    for i := 0 to |order|
      invariant operations.Keys == set l | l in order[..i]
      invariant forall l :: l in operations ==> l in b.byLabel && OperationsOf(p, b.byLabel[l], operations[l])
      invariant forall l :: l in operations && !p.classes[b.byLabel[l]].kind.Terminal? ==>
                  forall op :: op in p.classes[b.byLabel[l]].operations ==> GoodOperation(p, b.byLabel[l], op)
    {
      assert order[i] in order;
      assert order[..i + 1] == order[..i] + [order[i]];
      var c := b.byLabel[order[i]];
      assert c in b.Registered() && p.Needed(seeds, c);
      var ops := ResolveOperations(p, c, transitions[order[i]]);
      if ops.Err? {
        assert !GoodClass(p, seeds, c);
        return Some(ops.error), map[];
      }
      operations := operations[order[i] := ops.value];
    }
    assert order[..|order|] == order;
    return None, operations;
  }

  /** `label_of(self.initial)` and the check that it is an initial state. A class that is neither
      nested nor referenced has no entry in the finished state table. */
  method ResolveInitial(b: Builder, ghost seeds: set<Cls>, initial: Target) returns (r: Result<string, Error>)
    requires Complete(b, seeds) && (initial.ClassRef? ==> initial.cls in b.program.classes)
    ensures r.Ok? <==> GoodInitial(b.program, seeds, initial)
    ensures r.Ok? ==> r.value in b.byLabel && b.program.classes[b.byLabel[r.value]].kind.InitialState? &&
                      (initial == ClassRef(b.byLabel[r.value]) || initial == LabelRef(r.value))
  {
    var p := b.program;
    if initial.Malformed? {
      return Err(InvalidTarget);
    }
    if initial.LabelRef? && initial.name !in b.byLabel {
      LabelledMeansRegistered(b, seeds, initial.name);
      return Err(UnknownState);
    }
    var l := p.LabelOf(initial);
    if initial.ClassRef? && !b.Has(initial.cls) {
      assert initial.cls !in b.Registered();
      return Err(InitialNotResolved);
    }
    assert b.byLabel[l] in b.Registered();
    if !p.classes[b.byLabel[l]].kind.InitialState? {
      forall c | c in p.classes && p.Needed(seeds, c)
        ensures initial != LabelRef(p.classes[c].name) || c == b.byLabel[l]
      {
        assert c in b.Registered();
      }
      return Err(InitialNotInitialState);
    }
    return Ok(l);
  }

  ghost predicate OperationsOf(p: Program, c: Cls, ops: map<string, string>)
    requires p.Valid() && c in p.classes
  {
    if p.classes[c].kind.Terminal? then ops == map[]
    else ResolvedOperations(p, c, Destinations(p, c), ops)
  }

  /** What a graph says about the declarations it came from: one state per needed class, under that
      class's own label, with that class's facts, edges and operations. */
  ghost predicate Describes(p: Program, seeds: set<Cls>, initial: Target, g: Graph)
    requires p.Valid()
  {
    && (forall l :: l in g.states <==> Labelled(p, seeds, l))
    && (forall c :: c in p.classes && p.Needed(seeds, c) ==> DescribesClass(p, c, g))
    && (initial == LabelRef(g.initial) ||
        (initial.ClassRef? && initial.cls in p.classes && p.classes[initial.cls].name == g.initial))
  }

  ghost predicate DescribesClass(p: Program, c: Cls, g: Graph)
    requires p.Valid() && c in p.classes
  {
    var l := p.classes[c].name;
    && l in g.states && l in g.transitions && l in g.operations
    && l != "" && !p.classes[c].isAbstract && p.classes[c].ShownBy(g.states[l])
    && g.transitions[l] == Destinations(p, c) && "" !in g.transitions[l]
    && (forall t :: t in p.classes[c].Accumulated() ==> !t.Malformed?)
    && OperationsOf(p, c, g.operations[l])
  }

  lemma GraphIsValid(b: Builder, seeds: set<Cls>, g: Graph)
    requires Complete(b, seeds) && COMPLETE_CLASS in b.Registered() && DROPPED_CLASS in b.Registered()
    requires StatesOf(b.program, b.byLabel, g.states, g.transitions)
    requires forall l :: l in g.transitions ==> g.transitions[l] <= b.byLabel.Keys
    requires g.operations.Keys == b.byLabel.Keys
    requires forall l :: l in g.operations ==> OperationsOf(b.program, b.byLabel[l], g.operations[l])
    requires g.initial in b.byLabel && b.program.classes[b.byLabel[g.initial]].kind.InitialState?
    ensures g.Valid()
  {
    forall l {:trigger g.ValidState(l)} | l in g.states
      ensures g.ValidState(l)
    {
      StateIsValid(b, seeds, g, l);
    }
    TerminalsAreThere(b, seeds, g);
  }

  lemma TerminalsAreThere(b: Builder, seeds: set<Cls>, g: Graph)
    requires Complete(b, seeds) && COMPLETE_CLASS in b.Registered() && DROPPED_CLASS in b.Registered()
    requires StatesOf(b.program, b.byLabel, g.states, g.transitions)
    ensures COMPLETE in g.states && DROPPED in g.states && g.states[COMPLETE].terminal && g.states[DROPPED].terminal
  {
  }

  lemma StateIsValid(b: Builder, seeds: set<Cls>, g: Graph, l: string)
    requires Complete(b, seeds) && l in g.states && l in g.operations
    requires StatesOf(b.program, b.byLabel, g.states, g.transitions)
    requires g.transitions[l] <= b.byLabel.Keys && OperationsOf(b.program, b.byLabel[l], g.operations[l])
    ensures g.ValidState(l)
  {
    if !g.states[l].terminal {
      DroppedIsDestination(b.program, b.byLabel[l]);
    }
  }

  lemma GraphDescribes(b: Builder, seeds: set<Cls>, initial: Target, g: Graph)
    requires Complete(b, seeds)
    requires StatesOf(b.program, b.byLabel, g.states, g.transitions)
    requires g.operations.Keys == b.byLabel.Keys
    requires forall l :: l in g.operations ==> OperationsOf(b.program, b.byLabel[l], g.operations[l])
    requires forall l :: l in g.transitions ==> g.transitions[l] <= b.byLabel.Keys
    requires forall l :: l in b.byLabel ==>
               forall t :: t in b.program.classes[b.byLabel[l]].Accumulated() ==> !t.Malformed?
    requires g.initial in b.byLabel && (initial == ClassRef(b.byLabel[g.initial]) || initial == LabelRef(g.initial))
    ensures Describes(b.program, seeds, initial, g)
  {
    forall l
      ensures l in g.states <==> Labelled(b.program, seeds, l)
    {
      LabelledMeansRegistered(b, seeds, l);
    }
    forall c | c in b.program.classes && b.program.Needed(seeds, c)
      ensures DescribesClass(b.program, c, g)
    {
      assert c in b.Registered();
    }
  }

  lemma ResolvedIsWellDeclared(b: Builder, seeds: set<Cls>, initial: Target)
    requires Complete(b, seeds) && GoodInitial(b.program, seeds, initial)
    requires forall l :: l in b.byLabel ==>
               b.program.classes[b.byLabel[l]].turnOnEnter.Some? &&
               forall t :: t in b.program.classes[b.byLabel[l]].Accumulated() ==>
                 !t.Malformed? && (t.LabelRef? ==> t.name in b.byLabel)
    requires forall l :: l in b.byLabel && !b.program.classes[b.byLabel[l]].kind.Terminal? ==>
               forall op :: op in b.program.classes[b.byLabel[l]].operations ==>
                 GoodOperation(b.program, b.byLabel[l], op)
    ensures WellDeclared(b.program, seeds, initial)
  {
    var p := b.program;
    forall c | c in p.classes && p.Needed(seeds, c)
      ensures GoodClass(p, seeds, c)
    {
      assert c in b.Registered();
      var l :| l in b.byLabel && b.byLabel[l] == c;
      forall t | t in p.classes[c].Accumulated()
        ensures GoodTarget(p, seeds, t)
      {
        if t.LabelRef? {
          LabelledMeansRegistered(b, seeds, t.name);
        }
      }
    }
    forall c, d | c in p.classes && d in p.classes && p.Needed(seeds, c) && p.Needed(seeds, d)
                  && p.classes[c].name == p.classes[d].name
      ensures c == d
    {
      assert c in b.Registered() && d in b.Registered();
    }
  }

  /** Build the graph. The result is `Ok` exactly for well-declared workflows, and then the graph's
      states are the least class set closed under references from non-terminal classes. */
  method Resolve(p: Program, nested: seq<Cls>, initial: Target) returns (r: Result<Graph, Error>)
    requires p.Valid() && (forall c :: c in nested ==> c in p.classes)
    requires initial.ClassRef? ==> initial.cls in p.classes
    ensures r.Ok? <==> WellDeclared(p, Seeds(nested), initial)
    ensures r.Ok? ==> r.value.Valid() && Describes(p, Seeds(nested), initial, r.value)
  {
    ghost var seeds := Seeds(nested);
    var b := new Builder(p);
    var error := RegisterSeeds(b, nested, initial);
    if error.Some? {
      return Err(error.value);
    }
    error := b.Close(seeds, initial);
    if error.Some? {
      return Err(error.value);
    }
    forall c
      ensures p.Needed(seeds, c) <==> c in b.Registered()
    {
      RegisteredIsNeeded(b, seeds, c);
    }
    var states, transitions;
    error, states, transitions := ResolveStates(b, seeds, initial);
    if error.Some? {
      return Err(error.value);
    }
    var operations;
    error, operations := ResolveAllOperations(b, seeds, initial, transitions);
    if error.Some? {
      return Err(error.value);
    }
    var label_ := ResolveInitial(b, seeds, initial);
    if label_.Err? {
      return Err(label_.error);
    }
    var g := Graph(states, transitions, operations, label_.value);
    GraphIsValid(b, seeds, g);
    GraphDescribes(b, seeds, initial, g);
    ResolvedIsWellDeclared(b, seeds, initial);
    return Ok(g);
  }
}
