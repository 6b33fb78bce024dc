/** The machine of FtpServer on the linked list of ClientList: each step that adds, deletes, follows or
    forgets a client does so on the links, and in every interleaving these stay those of the
    machine's sequence. */
module LinkedServer {
  import opened Common
  import opened ClientList
  import opened FtpServer

  // ----- What a step asks of the links -----

  function ListAfter(list: seq<Id>, step: Step): seq<Id> {
    match step
    case Adds(c) => [c] + list
    case Deletes(c) => if Position(list, c) < |list| then RemoveAt(list, Position(list, c)) else list
    case Resets => []
    case _ => list
  }

  /** The walk reads the head of the list, or a client's next link. */
  predicate Reading(step: Step) { step.FiniLocks? || step.Visits? }

  function Found(list: seq<Id>, step: Step): Option<Id>
    requires Reading(step)
  {
    if step.Visits? then After(list, step.c) else if list == [] then None else Some(list[0])
  }

  /** During the walk, the client that it goes to once it is done with the one where it is, if any. */
  function Ahead(f: Fini): Option<Option<Id>> {
    match f
    case Walking(at) => Some(at)
    case Aborting(_, next, _) => Some(next)
    case Waiting(_, next) => Some(next)
    case _ => None
  }

  /** The client of the step is new, or is in the list or not, as it must be. */
  ghost predicate Ready(clients: set<Id>, list: seq<Id>, step: Step) {
    && (step.Accept? ==> step.c !in clients)
    && (step.Adds? ==> step.c in clients && step.c !in list)
    && (step.Deletes? || step.Visits? ==> step.c in list)
  }

  // ----- The machine does ask just this -----

  /** The invariant, and a step; over the one value of `u`, so that no proof about links takes them apart. */
  ghost predicate Safe(s: State) {
    forall u {:trigger Inv(u)} :: u == s ==> Inv(u)
  }

  ghost predicate Follows(s: State, step: Step, s': State) {
    forall u {:trigger Enabled(s, u)} :: u == step ==> Enabled(s, u) && s' == Do(s, u)
  }

  lemma {:induction false} StepIsReady(s: State, step: Step, s': State)
    requires Safe(s) && Follows(s, step, s')
    ensures Ready(s.phases.Keys, s.list, step) && s'.list == ListAfter(s.list, step)
  {
    assert Inv(s) && Enabled(s, step);
    if step.Adds? { AddIsReady(s, step.c); }
    if step.Deletes? { DeleteIsSafe(s, step.c); }
  }

  lemma {:induction false} StepReads(s: State, step: Step, s': State)
    requires Safe(s) && Follows(s, step, s')
    ensures Ahead(s'.fini) in {None, if Reading(step) then Some(Found(s.list, step)) else Ahead(s.fini)}
  {
    assert Enabled(s, step);
  }

  lemma {:induction false} StepIsSafe(s: State, step: Step, s': State)
    requires Safe(s) && Follows(s, step, s')
    ensures Safe(s')
  {
    assert Inv(s) && Enabled(s, step);
    StepKeepsInv(s, step);
  }

  /** Only an accepted client has a new phase. */
  lemma {:induction false} StepKeepsClients(s: State, step: Step, s': State)
    requires Safe(s) && Follows(s, step, s')
    ensures s'.phases.Keys == s.phases.Keys + if step.Accept? then {step.c} else {}
  {
    forall c ensures c in s'.phases.Keys <==> c in s.phases.Keys + if step.Accept? then {step.c} else {} {
      assert PhaseOf(s, c) == None <==> c !in s.phases;
      assert PhaseOf(s', c) == None <==> c !in s'.phases;
      StepKeepsClient(s, step, s', c);
    }
  }

  lemma {:induction false} StepKeepsClient(s: State, step: Step, s': State, c: Id)
    requires Safe(s) && Follows(s, step, s')
    ensures PhaseOf(s', c) == None <==> PhaseOf(s, c) == None && step != Accept(c)
  {
    assert Inv(s) && Enabled(s, step);
    if Subject(s, step) == Some(c) { SubjectPhases(s, step, c); } else { OthersKeepPhase(s, step, c); }
  }

  lemma {:induction false} StepMeans(s: State, step: Step, s': State)
    requires Safe(s) && Follows(s, step, s')
    ensures Safe(s') && Ready(s.phases.Keys, s.list, step) && s'.list == ListAfter(s.list, step)
    ensures s'.phases.Keys == s.phases.Keys + if step.Accept? then {step.c} else {}
    ensures Ahead(s'.fini) in {None, if Reading(step) then Some(Found(s.list, step)) else Ahead(s.fini)}
  {
    StepIsReady(s, step, s');
    StepIsSafe(s, step, s');
    StepKeepsClients(s, step, s');
    StepReads(s, step, s');
  }

  // ----- The links -----

  /** `order` holds the records of `list`. */
  ghost predicate Matches(records: map<Id, Client>, list: seq<Id>, order: seq<Client>) {
    |order| == |list| && forall k :: 0 <= k < |list| ==> list[k] in records && order[k] == records[list[k]]
  }

  ghost predicate OneRecordEach(records: map<Id, Client>) {
    forall c, d :: c in records && d in records && records[c] == records[d] ==> c == d
  }

  /** The pointer is to the record of `c`, or null. */
  ghost predicate PointsTo(records: map<Id, Client>, at: Client?, c: Option<Id>) {
    if at == null then c == None else c.Some? && c.value in records && at == records[c.value]
  }

  ghost predicate PointsAhead(records: map<Id, Client>, next: Client?, ahead: Option<Option<Id>>) {
    ahead.Some? ==> PointsTo(records, next, ahead.value)
  }

  class Links {
    const list: List
    /** The record of every client that was accepted. */
    var records: map<Id, Client>
    /** Who is in the list. */
    ghost var listed: seq<Id>

    ghost predicate Valid()
      reads this, list, list.order
    {
      list.Valid() && OneRecordEach(records) && Matches(records, listed, list.order)
    }

    constructor ()
      ensures Valid() && listed == [] && fresh(list) && records == map[]
    {
      list := new List();
      records, listed := map[], [];
    }

    /** malloc. */
    method Accept(c: Id)
      requires Valid() && c !in records
      modifies this`records
      ensures Valid() && c in records && fresh(records[c]) && records == old(records)[c := records[c]]
    {
      var client := new Client();
      records := records[c := client];
    }

    /** It writes to the records that the machine touches, and to no other. */
    method Add(c: Id)
      requires Valid() && c in records && c !in listed
      modifies this`listed, list, records.Values
      ensures Valid() && listed == [c] + old(listed)
      ensures forall x :: x in records && x !in AddTouches(old(listed), c) ==> unchanged(records[x])
    {
      forall k | 0 <= k < |listed| ensures list.order[k] != records[c] { assert list.order[k] == records[listed[k]]; }
      list.Add(records[c]);
      listed := [c] + listed;
    }

    /** Likewise. */
    method Delete(c: Id)
      requires Valid() && c in listed
      modifies this`listed, list, records.Values
      ensures Valid() && Position(old(listed), c) < |old(listed)|
      ensures listed == RemoveAt(old(listed), Position(old(listed), c))
      ensures forall x :: x in records && x !in DeleteTouches(old(listed), Position(old(listed), c)) ==>
                unchanged(records[x])
    {
      ghost var i := Position(listed, c);
      list.Delete(records[c], i);
      listed := RemoveAt(listed, i);
    }

    method Reset()
      requires Valid()
      modifies this`listed, list
      ensures Valid() && listed == []
    {
      list.Reset();
      listed := [];
    }

    /** What the walk reads. */
    method Follow(step: Step) returns (at: Client?)
      requires Valid() && Reading(step) && (step.Visits? ==> step.c in listed)
      ensures PointsTo(records, at, Found(listed, step))
    {
      if step.Visits? {
        ghost var i := Position(listed, step.c);
        assert records[step.c] == list.order[i];
        at := records[step.c].next;
      } else {
        at := list.client_list;
      }
    }

    /** One step of any thread, with the walk's pointer. */
    method Take(step: Step, next: Client?, ghost ahead: Option<Option<Id>>, ghost ahead': Option<Option<Id>>)
        returns (next': Client?)
      requires Valid() && Ready(records.Keys, listed, step) && PointsAhead(records, next, ahead)
      requires ahead' in {None, if Reading(step) then Some(Found(listed, step)) else ahead}
      modifies this, list, records.Values
      ensures Valid() && listed == ListAfter(old(listed), step) && PointsAhead(records, next', ahead')
      ensures records.Keys == old(records.Keys) + if step.Accept? then {step.c} else {}
      ensures forall c :: c in records ==>
                (c in old(records) && records[c] == old(records[c])) || fresh(records[c])
    {
      next' := next;
      match step {
        case Accept(c) => Accept(c);
        case Adds(c) => Add(c);
        case Deletes(c) => Delete(c);
        case FiniLocks | Visits(_) => next' := Follow(step);
        case Resets => Reset();
        case _ =>
      }
    }
  }

  /** Every run of the machine can be taken on the links: they are then those of the clients in the
      machine's list, number_clients is its count, and `next`, the walk's pointer, is to the client that the
      machine says comes next. */
  method Replay(steps: seq<Step>) returns (links: Links, next: Client?)
    requires Go(INIT, steps).Some?
    ensures var s := Go(INIT, steps).value;
      && fresh(links) && links.Valid() && links.listed == s.list && links.list.number_clients == s.count
      && PointsAhead(links.records, next, Ahead(s.fini))
  {
    links := new Links();
    next := null;
    var i := 0;
    ghost var s := INIT;
    InitialInv();
    assert steps[..0] == [];
    while i < |steps|
      invariant i <= |steps| && Go(INIT, steps[..i]) == Some(s) && Safe(s)
      invariant links.Valid() && links.listed == s.list && links.records.Keys == s.phases.Keys
      invariant PointsAhead(links.records, next, Ahead(s.fini))
      invariant fresh(links) && fresh(links.list) && forall c :: c in links.records ==> fresh(links.records[c])
    {
      ghost var s' := OneStep(steps, i, s);
      StepMeans(s, steps[i], s');
      next := links.Take(steps[i], next, Ahead(s.fini), Ahead(s'.fini));
      s, i := s', i + 1;
    }
    assert steps[..i] == steps && Inv(s);
  }

  lemma {:induction false} OneStep(steps: seq<Step>, i: nat, s: State) returns (s': State)
    requires Go(INIT, steps).Some? && i < |steps| && Go(INIT, steps[..i]) == Some(s)
    ensures Follows(s, steps[i], s') && Go(INIT, steps[..i + 1]) == Some(s')
  {
    GoFront(steps, i + 1);
    assert steps[..i + 1][..i] == steps[..i];
    s' := Go(INIT, steps[..i + 1]).value;
  }

  lemma {:induction false} GoFront(steps: seq<Step>, i: nat)
    requires Go(INIT, steps).Some? && i <= |steps|
    ensures Go(INIT, steps[..i]).Some?
  {
    if i < |steps| {
      GoFront(steps[..|steps| - 1], i);
      assert steps[..|steps| - 1][..i] == steps[..i];
    } else {
      assert steps[..i] == steps;
    }
  }
}
