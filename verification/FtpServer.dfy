/** The threads of src/ftpvita.c that share the client list: the server thread that accepts and
    lists clients, one thread for every client, and the thread that calls ftpvita_fini. The critical
    sections are those of ClientList, on the sequence of listed clients (LinkedServer takes the same
    steps on the links); each is one step, because no listed record is freed while it runs
    (SectionsAreAtomic). The walk of client_list_thread_end lets the client go when it aborts the
    control socket, and so every later read of the record is a step of its own. */
module FtpServer {
  import opened Common
  import opened ClientList

  /** One allocated client record, with its thread. */
  type Id = nat

  datatype Phase =
    | Created                  // allocated, and not yet listed
    | Listed                   // in the list, its thread not yet started
    | Serving                  // in the command loop
    | WantDelete               // received 0 or an error; about to lock the mutex
    | Deleting                 // holds the mutex in client_list_delete
    | Leaving(aborted: bool)   // out of the loop: the record is about to be freed
    | Freed(aborted: bool)     // the record is freed and the thread has ended

  datatype Server = Accepting | Adding(c: Id) | InAdd(c: Id) | Starting(c: Id) | Ended

  datatype Fini =
    | Idle
    | Closing                              // closed the server socket, waits for the server thread
    | Locking
    | Walking(at: Option<Id>)              // at the head of the loop in client_list_thread_end
    | Aborting(it: Id, next: Option<Id>, read: Read)   // aborted the control socket of `it`
    | Waiting(it: Id, next: Option<Id>)    // aborted all sockets of `it`, waits for its thread
    | Unlocked
    | MutexDeleted
    | Done

  /** What the walk reads next of a client whose control socket it has aborted. */
  datatype Read = ConnType | DataSocket | ConnTypeAgain | PassiveSocket

  datatype Owner = Nobody | ServerThread | FiniThread | ClientThread(c: Id)

  /** `live` are the records allocated and not freed; `stale` means that the walk read a record after
      it was freed, and `bad` any other use of a freed record, a second free, or a use of the mutex
      after its deletion or a deletion while in use. */
  datatype State = State(
    server: Server, fini: Fini, owner: Owner, mutexExists: bool,
    list: seq<Id>, count: int, phases: map<Id, Phase>, live: set<Id>,
    aborted: set<Id>, visited: seq<Id>, stale: bool, bad: bool)

  const INIT := State(Accepting, Idle, Nobody, true, [], 0, map[], {}, {}, [], false, false)

  datatype Step =
    | Accept(c: Id) | AcceptFails | AddLocks | Adds(c: Id) | Starts
    | Serves(c: Id) | Closes(c: Id) | DeleteLocks(c: Id) | Deletes(c: Id) | SeesAbort(c: Id) | Frees(c: Id)
    | FiniBegins | ServerJoined | FiniLocks | Visits(c: Id) | Reads(c: Id, more: bool)
    | Joined | FiniUnlocks | DeletesMutex | Resets

  // ----- The steps -----

  predicate IsClient(step: Step) {
    step.Serves? || step.Closes? || step.DeleteLocks? || step.Deletes? || step.SeesAbort? || step.Frees?
  }

  predicate In(s: State, c: Id, p: Phase) { c in s.phases && s.phases[c] == p }

  predicate Enabled(s: State, step: Step) {
    match step
    case Accept(c) => s.server == Accepting && c !in s.phases
    case AcceptFails => s.server == Accepting
    case AddLocks => s.server.Adding? && s.owner == Nobody
    case Adds(c) => s.server == InAdd(c)
    case Starts => s.server.Starting?
    case Serves(c) => In(s, c, Serving)
    case Closes(c) => In(s, c, Serving)
    case DeleteLocks(c) => In(s, c, WantDelete) && s.owner == Nobody
    case Deletes(c) => In(s, c, Deleting)
    case SeesAbort(c) => In(s, c, Serving) && c in s.aborted
    case Frees(c) => c in s.phases && s.phases[c].Leaving?
    case FiniBegins => s.fini == Idle
    case ServerJoined => s.fini == Closing && s.server == Ended
    case FiniLocks => s.fini == Locking && s.owner == Nobody
    case Visits(c) => s.fini == Walking(Some(c))
    case Reads(c, _) => s.fini.Aborting? && s.fini.it == c
    case Joined => s.fini.Waiting? && s.fini.it in s.phases && s.phases[s.fini.it].Freed?
    case FiniUnlocks => s.fini == Walking(None)
    case DeletesMutex => s.fini == Unlocked
    case Resets => s.fini == MutexDeleted
  }

  function Position(list: seq<Id>, c: Id): (i: nat)
    ensures i <= |list|
    ensures i < |list| ==> list[i] == c
    ensures i == |list| ==> c !in list
  {
    if list == [] then 0 else if list[0] == c then 0 else 1 + Position(list[1..], c)
  }

  /** it->next. */
  function After(list: seq<Id>, c: Id): Option<Id> {
    var i := Position(list, c);
    if i + 1 < |list| then Some(list[i + 1]) else None
  }

  /** The records that ClientList.List.Add and ClientList.List.Delete read or write. */
  function AddTouches(list: seq<Id>, c: Id): set<Id> {
    {c} + (if list == [] then {} else {list[0]})
  }

  function DeleteTouches(list: seq<Id>, i: nat): set<Id>
    requires i < |list|
  {
    {list[i]} + (if i == 0 then {} else {list[i - 1]}) + (if i + 1 < |list| then {list[i + 1]} else {})
  }

  function Touch(s: State, used: set<Id>): State { s.(bad := s.bad || !(used <= s.live)) }

  function Lock(s: State, owner: Owner): State { s.(owner := owner, bad := s.bad || !s.mutexExists) }

  function Become(s: State, c: Id, p: Phase): State { s.(phases := s.phases[c := p]) }

  function Do(s: State, step: Step): State
    requires Enabled(s, step)
  {
    match step
    case Accept(c) => Become(s, c, Created).(live := s.live + {c}, server := Adding(c))
    case AcceptFails => s.(server := Ended)
    case AddLocks => Lock(s, ServerThread).(server := InAdd(s.server.c))
    case Adds(c) =>
      Become(Touch(s, AddTouches(s.list, c)), c, Listed).(
        list := [c] + s.list, count := s.count + 1, owner := Nobody, server := Starting(c))
    case Starts => Become(s, s.server.c, Serving).(server := Accepting)
    case Serves(c) => Touch(s, {c})
    case Closes(c) => Become(Touch(s, {c}), c, WantDelete)
    case DeleteLocks(c) => Become(Lock(s, ClientThread(c)), c, Deleting)
    case Deletes(c) =>
      var i := Position(s.list, c);
      if i == |s.list| then s.(bad := true)
      else Become(Touch(s, DeleteTouches(s.list, i)), c, Leaving(false)).(
             list := RemoveAt(s.list, i), count := s.count - 1, owner := Nobody)
    case SeesAbort(c) => Become(Touch(s, {c}), c, Leaving(true))
    case Frees(c) => Become(Touch(s, {c}), c, Freed(s.phases[c].aborted)).(live := s.live - {c})
    case FiniBegins => s.(fini := Closing)
    case ServerJoined => s.(fini := Locking)
    case FiniLocks => Lock(s, FiniThread).(fini := Walking(if s.list == [] then None else Some(s.list[0])))
    case Visits(c) =>
      Touch(s, {c}).(aborted := s.aborted + {c}, visited := s.visited + [c],
                     fini := Aborting(c, After(s.list, c), ConnType))
    case Reads(c, more) => s.(stale := s.stale || c !in s.live, fini := AfterRead(s.fini, more))
    case Joined => s.(fini := Walking(s.fini.next))
    case FiniUnlocks => s.(owner := Nobody, fini := Unlocked)
    case DeletesMutex =>
      s.(mutexExists := false, fini := MutexDeleted, bad := s.bad || s.owner != Nobody || MutexAwaited(s))
    case Resets => s.(list := [], count := 0, fini := Done)
  }

  /** `more` is what the connection type just read says: that there is another socket to abort. */
  function AfterRead(f: Fini, more: bool): Fini
    requires f.Aborting?
  {
    match f.read
    case ConnType => if more then f.(read := DataSocket) else Waiting(f.it, f.next)
    case DataSocket => f.(read := ConnTypeAgain)
    case ConnTypeAgain => if more then f.(read := PassiveSocket) else Waiting(f.it, f.next)
    case PassiveSocket => Waiting(f.it, f.next)
  }

  predicate MutexAwaited(s: State) {
    s.server.Adding? || exists c :: c in s.phases && s.phases[c] == WantDelete
  }

  /** The state after a run from `s`; None if some step could not be taken. */
  function Go(s: State, steps: seq<Step>): Option<State> {
    if steps == [] then Some(s)
    else
      var before := Go(s, steps[..|steps| - 1]);
      var last := steps[|steps| - 1];
      if before.Some? && Enabled(before.value, last) then Some(Do(before.value, last)) else None
  }

  // ----- The invariant -----

  ghost predicate Distinct(list: seq<Id>) {
    forall i, j :: 0 <= i < j < |list| ==> list[i] != list[j]
  }

  /** Added, and not deleted by its own thread. */
  predicate Stays(p: Phase) {
    p in {Listed, Serving, WantDelete, Deleting, Leaving(true), Freed(true)}
  }

  /** Between the first and the last access to one client. */
  predicate AtClient(f: Fini) { f.Aborting? || f.Waiting? }

  predicate Holding(f: Fini) { f.Walking? || AtClient(f) }

  predicate WalkOver(f: Fini) { f in {Unlocked, MutexDeleted, Done} }

  ghost predicate LiveInv(live: set<Id>, phases: map<Id, Phase>) {
    forall c :: c in live <==> c in phases && !phases[c].Freed?
  }

  /** The list and its count, until the reset. */
  ghost predicate MembersInv(f: Fini, list: seq<Id>, count: int, phases: map<Id, Phase>) {
    if f == Done then list == [] && count == 0
    else count == |list| && forall c :: c in list <==> c in phases && Stays(phases[c])
  }

  ghost predicate ListInv(s: State) {
    Distinct(s.list) && LiveInv(s.live, s.phases) && MembersInv(s.fini, s.list, s.count, s.phases)
  }

  ghost predicate PhaseInv(phases: map<Id, Phase>, server: Server, owner: Owner) {
    forall c {:trigger phases[c]} :: c in phases ==>
      && (phases[c] == Created <==> server in {Adding(c), InAdd(c)})
      && (phases[c] == Listed <==> server == Starting(c))
      && (phases[c] == Deleting <==> owner == ClientThread(c))
  }

  ghost predicate OwnerInv(server: Server, f: Fini, owner: Owner, mutexExists: bool, phases: map<Id, Phase>) {
    && (server.Adding? || server.InAdd? || server.Starting? ==> server.c in phases)
    && (owner.ClientThread? ==> owner.c in phases)
    && (server.InAdd? <==> owner == ServerThread)
    && (Holding(f) <==> owner == FiniThread)
    && (f !in {Idle, Closing} ==> server == Ended)
    && (mutexExists <==> f !in {MutexDeleted, Done})
  }

  ghost predicate ThreadInv(s: State) {
    PhaseInv(s.phases, s.server, s.owner) && OwnerInv(s.server, s.fini, s.owner, s.mutexExists, s.phases)
  }

  /** The visited clients are the list up to where the walk is. */
  ghost predicate PositionInv(f: Fini, visited: seq<Id>, list: seq<Id>) {
    && (f in {Idle, Closing, Locking} ==> visited == [])
    && (f != Done ==> visited <= list)
    && (f.Walking? ==> f.at == Following(visited, list))
    && (AtClient(f) ==> visited != [] && f.it == visited[|visited| - 1] && f.next == Following(visited, list))
    && (f in {Unlocked, MutexDeleted} ==> visited == list)
  }

  ghost function Following(visited: seq<Id>, list: seq<Id>): Option<Id> {
    if visited < list then Some(list[|visited|]) else None
  }

  /** How many clients the walk has seen out. */
  function Waited(f: Fini, visited: seq<Id>): nat {
    if AtClient(f) && visited != [] then |visited| - 1 else |visited|
  }

  /** Who leaves by the abort path was visited, and who was seen out has left. */
  ghost predicate LeftInv(f: Fini, visited: seq<Id>, aborted: set<Id>, phases: map<Id, Phase>) {
    && (forall c :: c in aborted <==> c in visited)
    && (forall k :: 0 <= k < Waited(f, visited) ==> visited[k] in phases && phases[visited[k]] == Freed(true))
    && (forall c :: c in phases && phases[c] in {Leaving(true), Freed(true)} ==> c in aborted)
  }

  ghost predicate OverInv(f: Fini, visited: seq<Id>, phases: map<Id, Phase>) {
    WalkOver(f) ==> Distinct(visited) && forall c :: c in visited <==> c in phases && Stays(phases[c])
  }

  ghost predicate WalkInv(s: State) {
    && PositionInv(s.fini, s.visited, s.list)
    && LeftInv(s.fini, s.visited, s.aborted, s.phases)
    && OverInv(s.fini, s.visited, s.phases)
  }

  ghost predicate Inv(s: State) { !s.bad && ListInv(s) && ThreadInv(s) && WalkInv(s) }

  lemma {:induction false} InitialInv()
    ensures Inv(INIT)
  {
  }

  // ----- What a change of phase keeps -----

  lemma {:induction false} LeftBecome(f: Fini, visited: seq<Id>, aborted: set<Id>, phases: map<Id, Phase>, c: Id,
                                      p: Phase)
    requires LeftInv(f, visited, aborted, phases)
    requires c in phases ==> phases[c] != Freed(true)
    requires p in {Leaving(true), Freed(true)} ==> c in aborted
    ensures LeftInv(f, visited, aborted, phases[c := p])
  {
  }

  lemma {:induction false} StayBecome(f: Fini, visited: seq<Id>, list: seq<Id>, count: int, phases: map<Id, Phase>,
                                      c: Id, p: Phase)
    requires MembersInv(f, list, count, phases) && OverInv(f, visited, phases)
    requires Stays(p) <==> c in phases && Stays(phases[c])
    ensures MembersInv(f, list, count, phases[c := p]) && OverInv(f, visited, phases[c := p])
  {
  }

  // ----- The steps of the server -----

  lemma {:induction false} AcceptKeepsInv(s: State, c: Id)
    requires Inv(s) && Enabled(s, Accept(c))
    ensures Inv(Do(s, Accept(c)))
  {
    LeftBecome(s.fini, s.visited, s.aborted, s.phases, c, Created);
    StayBecome(s.fini, s.visited, s.list, s.count, s.phases, c, Created);
  }

  lemma {:induction false} ServerKeepsInv(s: State, step: Step)
    requires Inv(s) && Enabled(s, step) && step in {AcceptFails, AddLocks}
    ensures Inv(Do(s, step))
  {
  }

  lemma {:induction false} AddIsReady(s: State, c: Id)
    requires Inv(s) && Enabled(s, Adds(c))
    ensures In(s, c, Created) && c !in s.list && s.visited == [] && s.fini in {Idle, Closing}
    ensures AddTouches(s.list, c) <= s.live
  {
    assert s.phases[c] == Created;
    forall x | x in s.list ensures x in s.live {
      assert s.phases[x] == Freed(true) ==> x in s.visited;
    }
  }

  lemma {:induction false} AddedMembers(f: Fini, list: seq<Id>, count: int, phases: map<Id, Phase>, c: Id)
    requires MembersInv(f, list, count, phases) && Distinct(list) && f != Done && c !in list
    ensures MembersInv(f, [c] + list, count + 1, phases[c := Listed]) && Distinct([c] + list)
  {
  }

  lemma {:induction false} AddKeepsInv(s: State, c: Id)
    requires Inv(s) && Enabled(s, Adds(c))
    ensures Inv(Do(s, Adds(c)))
  {
    AddIsReady(s, c);
    AddedMembers(s.fini, s.list, s.count, s.phases, c);
    LeftBecome(s.fini, s.visited, s.aborted, s.phases, c, Listed);
  }

  lemma {:induction false} StartKeepsInv(s: State)
    requires Inv(s) && Enabled(s, Starts)
    ensures Inv(Do(s, Starts))
  {
    var c := s.server.c;
    assert s.phases[c] == Listed;
    LeftBecome(s.fini, s.visited, s.aborted, s.phases, c, Serving);
    StayBecome(s.fini, s.visited, s.list, s.count, s.phases, c, Serving);
  }

  // ----- The steps of a client -----

  lemma {:induction false} ServeKeepsInv(s: State, c: Id)
    requires Inv(s) && Enabled(s, Serves(c))
    ensures Inv(Do(s, Serves(c)))
  {
  }

  lemma {:induction false} CloseKeepsInv(s: State, c: Id)
    requires Inv(s) && Enabled(s, Closes(c))
    ensures Inv(Do(s, Closes(c)))
  {
    LeftBecome(s.fini, s.visited, s.aborted, s.phases, c, WantDelete);
    StayBecome(s.fini, s.visited, s.list, s.count, s.phases, c, WantDelete);
  }

  lemma {:induction false} DeleteLockKeepsInv(s: State, c: Id)
    requires Inv(s) && Enabled(s, DeleteLocks(c))
    ensures Inv(Do(s, DeleteLocks(c)))
  {
    LeftBecome(s.fini, s.visited, s.aborted, s.phases, c, Deleting);
    StayBecome(s.fini, s.visited, s.list, s.count, s.phases, c, Deleting);
    if WalkOver(s.fini) { StayerIsFreed(s, c); }
  }

  /** After the walk everybody who was in the list has ended. */
  lemma {:induction false} StayerIsFreed(s: State, c: Id)
    requires WalkInv(s) && WalkOver(s.fini) && c in s.phases && Stays(s.phases[c])
    ensures s.phases[c] == Freed(true)
  {
    assert c in s.visited;
    var k :| 0 <= k < |s.visited| && s.visited[k] == c;
    assert k < Waited(s.fini, s.visited);
  }

  lemma {:induction false} Removed(list: seq<Id>, i: nat)
    requires i < |list| && Distinct(list)
    ensures Distinct(RemoveAt(list, i))
    ensures forall x :: x in RemoveAt(list, i) <==> x in list && x != list[i]
  {
    assert list == list[..i] + [list[i]] + list[i + 1..];
  }

  /** The neighbours that a leaving client writes to are still allocated: a record that was freed
      without leaving the list was freed during the walk, which holds the mutex. */
  lemma {:induction false} DeleteIsSafe(s: State, c: Id)
    requires Inv(s) && Enabled(s, Deletes(c))
    ensures !Do(s, Deletes(c)).bad
    ensures c in s.list && s.visited == [] && !WalkOver(s.fini)
  {
    if WalkOver(s.fini) { StayerIsFreed(s, c); }
    assert s.owner == ClientThread(c) && !Holding(s.fini) && c in s.list;
    forall x | x in s.list ensures x in s.live {
      assert s.phases[x] == Freed(true) ==> x in s.visited;
    }
  }

  lemma {:induction false} DeleteKeepsInv(s: State, c: Id)
    requires Inv(s) && Enabled(s, Deletes(c))
    ensures Inv(Do(s, Deletes(c)))
  {
    DeleteIsSafe(s, c);
    Removed(s.list, Position(s.list, c));
    LeftBecome(s.fini, s.visited, s.aborted, s.phases, c, Leaving(false));
  }

  lemma {:induction false} AbortKeepsInv(s: State, c: Id)
    requires Inv(s) && Enabled(s, SeesAbort(c))
    ensures Inv(Do(s, SeesAbort(c)))
  {
    LeftBecome(s.fini, s.visited, s.aborted, s.phases, c, Leaving(true));
    StayBecome(s.fini, s.visited, s.list, s.count, s.phases, c, Leaving(true));
  }

  lemma {:induction false} FreeKeepsInv(s: State, c: Id)
    requires Inv(s) && Enabled(s, Frees(c))
    ensures Inv(Do(s, Frees(c)))
  {
    var p := Freed(s.phases[c].aborted);
    LeftBecome(s.fini, s.visited, s.aborted, s.phases, c, p);
    StayBecome(s.fini, s.visited, s.list, s.count, s.phases, c, p);
  }

  /** Why a critical section on the list is one step: nobody frees a listed record meanwhile. */
  lemma {:induction false} SectionsAreAtomic(s: State, c: Id)
    requires Inv(s) && (s.owner == ServerThread || s.owner.ClientThread?) && Enabled(s, Frees(c))
    ensures c !in s.list
  {
    if s.owner.ClientThread? {
      DeleteIsSafe(s, s.owner.c);
    }
    assert s.phases[c] == Leaving(true) ==> c in s.visited;
  }

  // ----- The steps of the shutdown -----

  lemma {:induction false} FiniKeepsInv(s: State, step: Step)
    requires Inv(s) && Enabled(s, step) && step in {FiniBegins, ServerJoined, Resets}
    ensures Inv(Do(s, step))
  {
  }

  lemma {:induction false} FiniLockKeepsInv(s: State)
    requires Inv(s) && Enabled(s, FiniLocks)
    ensures Inv(Do(s, FiniLocks))
  {
    assert s.visited == [];
  }

  /** Where the walk stands: a client that it has not visited, and whose record is allocated. */
  lemma {:induction false} WalkStandsAt(s: State, c: Id)
    requires Inv(s) && s.fini == Walking(Some(c))
    ensures c in s.list && s.visited + [c] <= s.list && c !in s.visited && c in s.live
    ensures After(s.list, c) == Following(s.visited + [c], s.list)
  {
    var k := |s.visited|;
    assert s.list[k] == c && Position(s.list, c) == k;
    assert s.visited + [c] == s.list[..k + 1];
    assert forall i :: 0 <= i < k ==> s.visited[i] == s.list[i];
    assert c in s.list && c !in s.aborted;
  }

  lemma {:induction false} VisitKeepsInv(s: State, c: Id)
    requires Inv(s) && Enabled(s, Visits(c))
    ensures Inv(Do(s, Visits(c)))
  {
    WalkStandsAt(s, c);
    LeftVisit(s.fini, s.visited, s.aborted, s.phases, c, Aborting(c, After(s.list, c), ConnType));
  }

  lemma {:induction false} LeftVisit(f: Fini, visited: seq<Id>, aborted: set<Id>, phases: map<Id, Phase>, c: Id,
                                     f': Fini)
    requires LeftInv(f, visited, aborted, phases) && f.Walking? && AtClient(f')
    ensures LeftInv(f', visited + [c], aborted + {c}, phases)
  {
  }

  lemma {:induction false} ReadKeepsInv(s: State, c: Id, more: bool)
    requires Inv(s) && Enabled(s, Reads(c, more))
    ensures Inv(Do(s, Reads(c, more)))
  {
  }

  lemma {:induction false} JoinKeepsInv(s: State)
    requires Inv(s) && Enabled(s, Joined)
    ensures Inv(Do(s, Joined))
  {
    assert s.fini.it == s.visited[|s.visited| - 1];
    assert s.fini.it in s.visited && s.fini.it in s.list && Stays(s.phases[s.fini.it]);
    LeftJoin(s.fini, s.visited, s.aborted, s.phases, Walking(s.fini.next));
  }

  lemma {:induction false} LeftJoin(f: Fini, visited: seq<Id>, aborted: set<Id>, phases: map<Id, Phase>, f': Fini)
    requires LeftInv(f, visited, aborted, phases) && AtClient(f) && f'.Walking? && visited != []
    requires visited[|visited| - 1] in phases && phases[visited[|visited| - 1]] == Freed(true)
    ensures LeftInv(f', visited, aborted, phases)
  {
  }

  lemma {:induction false} FiniUnlockKeepsInv(s: State)
    requires Inv(s) && Enabled(s, FiniUnlocks)
    ensures Inv(Do(s, FiniUnlocks))
  {
    assert s.visited == s.list;
  }

  /** Nobody holds the mutex or waits for it when it is deleted. */
  lemma {:induction false} MutexDeleteKeepsInv(s: State)
    requires Inv(s) && Enabled(s, DeletesMutex)
    ensures Inv(Do(s, DeletesMutex))
  {
    forall c | c in s.phases ensures s.phases[c] !in {WantDelete, Deleting} {
      if Stays(s.phases[c]) { StayerIsFreed(s, c); }
    }
  }

  // ----- All steps -----

  lemma {:induction false} StepKeepsInv(s: State, step: Step)
    requires Inv(s) && Enabled(s, step)
    ensures Inv(Do(s, step))
  {
    match step
    case Accept(c) => AcceptKeepsInv(s, c);
    case AcceptFails | AddLocks => ServerKeepsInv(s, step);
    case Adds(c) => AddKeepsInv(s, c);
    case Starts => StartKeepsInv(s);
    case Serves(c) => ServeKeepsInv(s, c);
    case Closes(c) => CloseKeepsInv(s, c);
    case DeleteLocks(c) => DeleteLockKeepsInv(s, c);
    case Deletes(c) => DeleteKeepsInv(s, c);
    case SeesAbort(c) => AbortKeepsInv(s, c);
    case Frees(c) => FreeKeepsInv(s, c);
    case FiniBegins | ServerJoined | Resets => FiniKeepsInv(s, step);
    case FiniLocks => FiniLockKeepsInv(s);
    case Visits(c) => VisitKeepsInv(s, c);
    case Reads(c, more) => ReadKeepsInv(s, c, more);
    case Joined => JoinKeepsInv(s);
    case FiniUnlocks => FiniUnlockKeepsInv(s);
    case DeletesMutex => MutexDeleteKeepsInv(s);
  }

  // ----- Over whole runs -----

  lemma {:induction false} RunKeepsInv(s: State, steps: seq<Step>)
    requires Inv(s) && Go(s, steps).Some?
    ensures Inv(Go(s, steps).value)
  {
    if steps != [] {
      RunKeepsInv(s, steps[..|steps| - 1]);
      StepKeepsInv(Go(s, steps[..|steps| - 1]).value, steps[|steps| - 1]);
    }
  }

  /** In every interleaving: but for the walk's reads after its abort of the control socket (see
      StaleExactly) no freed record is used, none is freed again, and the mutex is never used after
      its deletion; until the reset, the list holds exactly the clients that were added and
      have not deleted themselves, each once, and number_clients is its length. */
  lemma {:induction false} RunsAreSafe(steps: seq<Step>)
    requires Go(INIT, steps).Some?
    ensures var s := Go(INIT, steps).value;
      && !s.bad && Distinct(s.list)
      && (s.fini != Done ==>
          s.count == |s.list| && forall c :: c in s.list <==> Adds(c) in steps && Deletes(c) !in steps)
    ensures forall c :: multiset(steps)[Frees(c)] <= 1
  {
    InitialInv();
    RunKeepsInv(INIT, steps);
    History(steps);
    var s := Go(INIT, steps).value;
    forall c ensures s.fini != Done ==> (c in s.list <==> Adds(c) in steps && Deletes(c) !in steps) {
      assert Told(s, steps, c);
    }
    forall c ensures multiset(steps)[Frees(c)] <= 1 {
      assert Told(s, steps, c);
    }
  }

  /** What the run did to a client can be told from its phase. */
  ghost predicate Told(s: State, steps: seq<Step>, c: Id) {
    && AddsTold(s, steps, c)
    && DeletesTold(s, steps, c)
    && FreesTold(s, steps, c)
    && VisitsTold(s, steps, c)
  }

  ghost predicate AddsTold(s: State, steps: seq<Step>, c: Id) {
    Adds(c) in steps <==> PhaseOf(s, c) !in {None, Some(Created)}
  }

  ghost predicate DeletesTold(s: State, steps: seq<Step>, c: Id) {
    Deletes(c) in steps <==> PhaseOf(s, c) in {Some(Leaving(false)), Some(Freed(false))}
  }

  ghost predicate FreesTold(s: State, steps: seq<Step>, c: Id) {
    multiset(steps)[Frees(c)] == if PhaseOf(s, c) in {Some(Freed(false)), Some(Freed(true))} then 1 else 0
  }

  /** The client was freed after the walk had aborted its control socket. */
  ghost predicate FreedSinceVisit(steps: seq<Step>, c: Id) {
    exists i, j :: 0 <= i < j < |steps| && steps[i] == Visits(c) && steps[j] == Frees(c)
  }

  ghost predicate VisitsTold(s: State, steps: seq<Step>, c: Id) {
    && (Visits(c) in steps <==> c in s.visited)
    && (FreedSinceVisit(steps, c) <==> PhaseOf(s, c) == Some(Freed(true)))
  }

  /** The client whose phase a step changes. */
  function Subject(s: State, step: Step): Option<Id>
    requires Enabled(s, step)
  {
    match step
    case Accept(c) => Some(c)
    case Adds(c) => Some(c)
    case Starts => Some(s.server.c)
    case Closes(c) => Some(c)
    case DeleteLocks(c) => Some(c)
    case Deletes(c) => Some(c)
    case SeesAbort(c) => Some(c)
    case Frees(c) => Some(c)
    case _ => None
  }

  function PhaseOf(s: State, c: Id): Option<Phase> { if c in s.phases then Some(s.phases[c]) else None }

  lemma {:induction false} OthersKeepPhase(s: State, step: Step, c: Id)
    requires Enabled(s, step) && Subject(s, step) != Some(c)
    ensures PhaseOf(Do(s, step), c) == PhaseOf(s, c)
  {
  }

  /** How far the client whose phase changes has come. */
  lemma {:induction false} SubjectPhases(s: State, step: Step, c: Id)
    requires Inv(s) && Enabled(s, step) && Subject(s, step) == Some(c)
    ensures var p, p' := PhaseOf(s, c), PhaseOf(Do(s, step), c);
      match step
      case Accept(_) => p == None && p' == Some(Created)
      case Adds(_) => p == Some(Created) && p' == Some(Listed)
      case Deletes(_) => p == Some(Deleting) && p' == Some(Leaving(false))
      case Frees(_) => (p == Some(Leaving(true)) && p' == Some(Freed(true)))
          || (p == Some(Leaving(false)) && p' == Some(Freed(false)))
      case SeesAbort(_) => p == Some(Serving) && p' == Some(Leaving(true))
      case Starts => p == Some(Listed) && p' == Some(Serving)
      case Closes(_) => p == Some(Serving) && p' == Some(WantDelete)
      case DeleteLocks(_) => p == Some(WantDelete) && p' == Some(Deleting)
      case _ => true
  {
    if step.Deletes? { DeleteIsSafe(s, c); }
  }

  lemma {:induction false} StepTellsAdds(s: State, steps: seq<Step>, step: Step, c: Id)
    requires Inv(s) && Enabled(s, step) && AddsTold(s, steps, c)
    ensures AddsTold(Do(s, step), steps + [step], c)
  {
    assert Adds(c) in steps + [step] <==> Adds(c) in steps || step == Adds(c);
    if Subject(s, step) == Some(c) { SubjectPhases(s, step, c); } else { OthersKeepPhase(s, step, c); }
  }

  lemma {:induction false} StepTellsDeletes(s: State, steps: seq<Step>, step: Step, c: Id)
    requires Inv(s) && Enabled(s, step) && DeletesTold(s, steps, c)
    ensures DeletesTold(Do(s, step), steps + [step], c)
  {
    assert Deletes(c) in steps + [step] <==> Deletes(c) in steps || step == Deletes(c);
    if Subject(s, step) == Some(c) { SubjectPhases(s, step, c); } else { OthersKeepPhase(s, step, c); }
  }

  lemma {:induction false} StepTellsFrees(s: State, steps: seq<Step>, step: Step, c: Id)
    requires Inv(s) && Enabled(s, step) && FreesTold(s, steps, c)
    ensures FreesTold(Do(s, step), steps + [step], c)
  {
    assert multiset(steps + [step])[Frees(c)] == multiset(steps)[Frees(c)] + if step == Frees(c) then 1 else 0;
    if Subject(s, step) == Some(c) { SubjectPhases(s, step, c); } else { OthersKeepPhase(s, step, c); }
  }

  lemma {:induction false} FreedSinceVisitStep(steps: seq<Step>, step: Step, c: Id)
    ensures FreedSinceVisit(steps + [step], c) <==>
            FreedSinceVisit(steps, c) || (step == Frees(c) && Visits(c) in steps)
  {
    var more := steps + [step];
    if FreedSinceVisit(steps, c) {
      var i, j :| 0 <= i < j < |steps| && steps[i] == Visits(c) && steps[j] == Frees(c);
      assert more[i] == Visits(c) && more[j] == Frees(c);
    }
    if step == Frees(c) && Visits(c) in steps {
      var i :| 0 <= i < |steps| && steps[i] == Visits(c);
      assert more[i] == Visits(c) && more[|steps|] == Frees(c);
    }
    if FreedSinceVisit(more, c) {
      var i, j :| 0 <= i < j < |more| && more[i] == Visits(c) && more[j] == Frees(c);
      assert steps[i] == Visits(c);
      if j < |steps| { assert steps[j] == Frees(c); }
    }
  }

  lemma {:induction false} StepTellsVisits(s: State, steps: seq<Step>, step: Step, c: Id)
    requires Inv(s) && Enabled(s, step) && VisitsTold(s, steps, c)
    ensures VisitsTold(Do(s, step), steps + [step], c)
  {
    FreedSinceVisitStep(steps, step, c);
    assert Visits(c) in steps + [step] <==> Visits(c) in steps || step == Visits(c);
    VisitedGrows(s, step);
    if step == Frees(c) {
      FreedByAbort(s, c);
    } else {
      FreedStays(s, step, c);
    }
  }

  /** A client leaves by the abort path exactly if the walk has visited it. */
  lemma {:induction false} FreedByAbort(s: State, c: Id)
    requires Inv(s) && Enabled(s, Frees(c))
    ensures s.phases[c] == Leaving(true) <==> c in s.visited
  {
  }

  lemma {:induction false} FreedStays(s: State, step: Step, c: Id)
    requires Inv(s) && Enabled(s, step) && step != Frees(c)
    ensures PhaseOf(Do(s, step), c) == Some(Freed(true)) <==> PhaseOf(s, c) == Some(Freed(true))
  {
    if Subject(s, step) == Some(c) { SubjectPhases(s, step, c); } else { OthersKeepPhase(s, step, c); }
  }

  lemma {:induction false} VisitedGrows(s: State, step: Step)
    requires Enabled(s, step)
    ensures Do(s, step).visited == if step.Visits? then s.visited + [step.c] else s.visited
  {
  }

  lemma {:induction false} History(steps: seq<Step>)
    requires Go(INIT, steps).Some?
    ensures forall c :: Told(Go(INIT, steps).value, steps, c)
  {
    if steps != [] {
      var before, last := steps[..|steps| - 1], steps[|steps| - 1];
      History(before);
      InitialInv();
      RunKeepsInv(INIT, before);
      forall c ensures Told(Go(INIT, steps).value, steps, c) {
        assert Told(Go(INIT, before).value, before, c);
        StepTellsAdds(Go(INIT, before).value, before, last, c);
        StepTellsDeletes(Go(INIT, before).value, before, last, c);
        StepTellsFrees(Go(INIT, before).value, before, last, c);
        StepTellsVisits(Go(INIT, before).value, before, last, c);
        assert steps == before + [last];
      }
    }
  }

  /** Some read of a client by the walk comes after the client was freed, which in turn came after the
      walk aborted its control socket. */
  ghost predicate ReadsTooLate(steps: seq<Step>) {
    exists k :: 0 <= k < |steps| && steps[k].Reads? && FreedSinceVisit(steps[..k], steps[k].c)
  }

  /** The one use of freed memory: a run has it if and only if some client is freed between the abort
      of its control socket and a later read of its record by the walk. */
  lemma {:induction false} StaleExactly(steps: seq<Step>)
    requires Go(INIT, steps).Some?
    ensures Go(INIT, steps).value.stale <==> ReadsTooLate(steps)
  {
    if steps != [] {
      var before, last := steps[..|steps| - 1], steps[|steps| - 1];
      StaleExactly(before);
      InitialInv();
      RunKeepsInv(INIT, before);
      History(before);
      StaleStep(Go(INIT, before).value, before, last);
      assert steps == before + [last];
    }
  }

  lemma {:induction false} StaleStep(s: State, steps: seq<Step>, step: Step)
    requires Inv(s) && Enabled(s, step) && (s.stale <==> ReadsTooLate(steps)) && forall c :: Told(s, steps, c)
    ensures Do(s, step).stale <==> ReadsTooLate(steps + [step])
  {
    LateReadStep(steps, step);
    if step.Reads? {
      assert Told(s, steps, step.c);
      ReadIsLate(s, step.c, step.more);
    }
  }

  lemma {:induction false} LateReadStep(steps: seq<Step>, step: Step)
    ensures ReadsTooLate(steps + [step]) <==> ReadsTooLate(steps) || (step.Reads? && FreedSinceVisit(steps, step.c))
  {
    var more := steps + [step];
    assert more[..|steps|] == steps;
    assert forall k :: 0 <= k < |steps| ==> more[..k] == steps[..k] && more[k] == steps[k];
  }

  lemma {:induction false} ReadIsLate(s: State, c: Id, more: bool)
    requires Inv(s) && Enabled(s, Reads(c, more))
    ensures c !in s.live <==> In(s, c, Freed(true))
  {
    assert c in s.visited && c in s.list;
  }

  /** When the shutdown walk is over it has visited every client that was added and had not deleted
      itself, each once, and all of them have ended. */
  lemma {:induction false} WalkVisitsAll(steps: seq<Step>)
    requires Go(INIT, steps).Some? && WalkOver(Go(INIT, steps).value.fini)
    ensures var s := Go(INIT, steps).value;
      && Distinct(s.visited)
      && (forall c :: c in s.visited <==> Adds(c) in steps && Deletes(c) !in steps)
      && (forall c :: c in s.visited ==> Frees(c) in steps)
  {
    InitialInv();
    RunKeepsInv(INIT, steps);
    History(steps);
    var s := Go(INIT, steps).value;
    forall c | c in s.visited ensures Frees(c) in steps {
      var k :| 0 <= k < |s.visited| && s.visited[k] == c;
      assert In(s, s.visited[k], Freed(true));
      assert Told(s, steps, c);
    }
    forall c ensures c in s.visited <==> Adds(c) in steps && Deletes(c) !in steps {
      assert Told(s, steps, c);
    }
  }

  // ----- When the shutdown walk ends -----

  predicate InWalk(s: State) { Holding(s.fini) || WalkOver(s.fini) }

  /** A listed client has left its loop by the other branch: it will ask for the mutex. */
  ghost predicate SomeoneWantsDelete(s: State) {
    exists c :: c in s.list && In(s, c, WantDelete)
  }

  /** The steps that bring the walk forward: its own, and those of the client it waits for. */
  predicate Forward(s: State, step: Step) {
    || step.Visits? || step.Reads? || step in {Joined, FiniUnlocks, DeletesMutex, Resets}
    || (AtClient(s.fini) && step in {SeesAbort(s.fini.it), Frees(s.fini.it)})
  }

  function ToGo(s: State): nat {
    var unvisited := if |s.visited| < |s.list| then |s.list| - |s.visited| else 0;
    match s.fini
    case Aborting(it, _, read) => 9 * unvisited + 4 + ClientToGo(s, it) + ReadsToGo(read)
    case Waiting(it, _) => 9 * unvisited + 4 + ClientToGo(s, it)
    case Unlocked => 2
    case MutexDeleted => 1
    case Done => 0
    case _ => 9 * unvisited + 4
  }

  function ReadsToGo(read: Read): nat {
    match read
    case ConnType => 4
    case DataSocket => 3
    case ConnTypeAgain => 2
    case PassiveSocket => 1
  }

  function ClientToGo(s: State, c: Id): nat {
    if c !in s.phases then 0
    else match s.phases[c]
      case Leaving(_) => 2
      case Freed(_) => 1
      case _ => 3
  }

  lemma {:induction false} ForwardVisit(s: State, c: Id)
    requires WalkInv(s) && Enabled(s, Visits(c))
    ensures InWalk(Do(s, Visits(c))) && ToGo(Do(s, Visits(c))) < ToGo(s)
  {
    assert |s.visited| < |s.list|;
  }

  lemma {:induction false} ForwardRead(s: State, c: Id, more: bool)
    requires Enabled(s, Reads(c, more))
    ensures InWalk(Do(s, Reads(c, more))) && ToGo(Do(s, Reads(c, more))) < ToGo(s)
  {
  }

  lemma {:induction false} ForwardFini(s: State, step: Step)
    requires WalkInv(s) && InWalk(s) && Enabled(s, step) && step in {Joined, FiniUnlocks, DeletesMutex, Resets}
    ensures InWalk(Do(s, step)) && ToGo(Do(s, step)) < ToGo(s)
  {
  }

  lemma {:induction false} ForwardClient(s: State, step: Step)
    requires AtClient(s.fini) && Enabled(s, step) && step in {SeesAbort(s.fini.it), Frees(s.fini.it)}
    ensures InWalk(Do(s, step)) && ToGo(Do(s, step)) < ToGo(s)
  {
  }

  lemma {:induction false} ForwardStep(s: State, step: Step)
    requires Inv(s) && InWalk(s) && Enabled(s, step) && Forward(s, step)
    ensures InWalk(Do(s, step)) && ToGo(Do(s, step)) < ToGo(s)
  {
    if AtClient(s.fini) && step in {SeesAbort(s.fini.it), Frees(s.fini.it)} {
      ForwardClient(s, step);
    } else if step.Visits? {
      ForwardVisit(s, step.c);
    } else if step.Reads? {
      ForwardRead(s, step.c, step.more);
    } else {
      ForwardFini(s, step);
    }
  }

  lemma {:induction false} ForwardKeepsList(s: State, step: Step)
    requires Inv(s) && InWalk(s) && Enabled(s, step) && Forward(s, step)
    ensures Do(s, step).list == if step == Resets then [] else s.list
  {
  }

  /** During and after the walk only its own steps go on, and those of clients in or after their
      command loop. */
  lemma {:induction false} OnlyClientsElse(s: State, step: Step)
    requires Inv(s) && InWalk(s) && Enabled(s, step) && !Forward(s, step)
    ensures step.Serves? || step.Closes? || step.SeesAbort? || step.Frees?
  {
    assert s.server == Ended;
    if step.DeleteLocks? || step.Deletes? {
      if WalkOver(s.fini) { StayerIsFreed(s, step.c); }
    }
  }

  lemma {:induction false} OtherStepKeepsList(s: State, step: Step)
    requires Inv(s) && InWalk(s) && Enabled(s, step) && !Forward(s, step)
    ensures var t := Do(s, step); t.list == s.list && t.visited == s.visited && t.fini == s.fini
  {
    OnlyClientsElse(s, step);
  }

  lemma {:induction false} OtherStep(s: State, step: Step)
    requires Inv(s) && InWalk(s) && Enabled(s, step) && !Forward(s, step)
    ensures InWalk(Do(s, step)) && ToGo(Do(s, step)) <= ToGo(s)
  {
    OnlyClientsElse(s, step);
    OtherStepKeepsList(s, step);
    if AtClient(s.fini) { OtherClientToGo(s, step, s.fini.it); }
  }

  lemma {:induction false} OtherClientToGo(s: State, step: Step, it: Id)
    requires Enabled(s, step) && (step.Serves? || step.Closes? || step.SeesAbort? || step.Frees?)
    ensures ClientToGo(Do(s, step), it) <= ClientToGo(s, it)
  {
  }

  lemma {:induction false} NobodyWantsDelete(s: State, step: Step)
    requires Inv(s) && InWalk(s) && Enabled(s, step) && !SomeoneWantsDelete(s)
    requires forall c :: c in s.list ==> step != Closes(c)
    ensures !SomeoneWantsDelete(Do(s, step))
  {
    var t := Do(s, step);
    if Forward(s, step) { ForwardKeepsList(s, step); } else { OtherStepKeepsList(s, step); }
    forall c | c in t.list ensures PhaseOf(t, c) != Some(WantDelete) {
      assert c in s.list && !In(s, c, WantDelete);
      if Subject(s, step) == Some(c) { SubjectPhases(s, step, c); } else { OthersKeepPhase(s, step, c); }
      OnlyClosesLeads(s, step, c);
    }
  }

  lemma {:induction false} OnlyClosesLeads(s: State, step: Step, c: Id)
    requires Enabled(s, step) && step != Closes(c)
    ensures PhaseOf(Do(s, step), c) == Some(WantDelete) ==> PhaseOf(s, c) == Some(WantDelete)
  {
  }

  lemma {:induction false} ForwardEnabled(s: State) returns (step: Step)
    requires Inv(s) && InWalk(s) && s.fini != Done && !SomeoneWantsDelete(s)
    ensures Enabled(s, step) && Forward(s, step)
  {
    match s.fini
    case Walking(at) => step := if at.Some? then Visits(at.value) else FiniUnlocks;
    case Aborting(it, _, _) => step := Reads(it, false);
    case Waiting(it, _) =>
      assert it in s.list && In(s, it, s.phases[it]);
      step := match s.phases[it] case Serving => SeesAbort(it) case Leaving(_) => Frees(it) case _ => Joined;
    case Unlocked => step := DeletesMutex;
    case _ => step := Resets;
  }

  function ForwardSteps(s: State, steps: seq<Step>): nat
    requires Go(s, steps).Some?
  {
    if steps == [] then 0
    else
      var before := steps[..|steps| - 1];
      ForwardSteps(s, before) + if Forward(Go(s, before).value, steps[|steps| - 1]) then 1 else 0
  }

  /** If from the walk's start on every listed client leaves by the abort path, then whatever else
      is interleaved the walk takes a bounded number of steps forward, and until it is done one is
      always enabled. */
  lemma {:induction false} WalkTerminates(s: State, steps: seq<Step>)
    requires Inv(s) && InWalk(s) && !SomeoneWantsDelete(s)
    requires Go(s, steps).Some? && forall c :: c in s.list ==> Closes(c) !in steps
    ensures var e := Go(s, steps).value;
      && Inv(e) && InWalk(e) && !SomeoneWantsDelete(e) && (e.list == s.list || e.list == [])
      && ForwardSteps(s, steps) + ToGo(e) <= ToGo(s)
      && (e.fini == Done || exists step :: Enabled(e, step) && Forward(e, step))
  {
    if steps != [] {
      var before, last := steps[..|steps| - 1], steps[|steps| - 1];
      var b := Go(s, before).value;
      assert forall step :: step in before ==> step in steps;
      WalkTerminates(s, before);
      StepKeepsInv(b, last);
      NobodyWantsDelete(b, last);
      if Forward(b, last) {
        ForwardStep(b, last);
        ForwardKeepsList(b, last);
      } else {
        OtherStep(b, last);
        OtherStepKeepsList(b, last);
      }
    }
    var e := Go(s, steps).value;
    if e.fini != Done {
      var step := ForwardEnabled(e);
    }
  }

  /** A listed client that wants to delete itself never gets the mutex that the walk holds while it
      waits, or will wait, for that client's thread. */
  lemma {:induction false} StuckForever(s: State, steps: seq<Step>, c: Id)
    requires Inv(s) && Holding(s.fini)
    requires c in s.list && In(s, c, WantDelete) && Go(s, steps).Some?
    ensures var e := Go(s, steps).value; Inv(e) && Holding(e.fini) && c in e.list && In(e, c, WantDelete)
  {
    if steps != [] {
      var before, last := steps[..|steps| - 1], steps[|steps| - 1];
      StuckForever(s, before, c);
      StepKeepsInv(Go(s, before).value, last);
      StuckStep(Go(s, before).value, last, c);
    }
  }

  lemma {:induction false} StuckStep(s: State, step: Step, c: Id)
    requires Inv(s) && Holding(s.fini)
    requires c in s.list && In(s, c, WantDelete) && Enabled(s, step)
    ensures var e := Do(s, step); Holding(e.fini) && c in e.list && In(e, c, WantDelete)
  {
    assert s.server == Ended && s.owner == FiniThread;
    if IsClient(step) { StuckAmongClients(s, step, c); } else { StuckInWalk(s, step, c); }
  }

  lemma {:induction false} StuckAmongClients(s: State, step: Step, c: Id)
    requires ThreadInv(s) && s.owner == FiniThread && IsClient(step) && Enabled(s, step)
    requires c in s.list && In(s, c, WantDelete)
    ensures var e := Do(s, step); e.fini == s.fini && c in e.list && In(e, c, WantDelete)
  {
  }

  lemma {:induction false} StuckInWalk(s: State, step: Step, c: Id)
    requires Inv(s) && Holding(s.fini) && !IsClient(step) && Enabled(s, step)
    requires c in s.list && In(s, c, WantDelete)
    ensures var e := Do(s, step); Holding(e.fini) && c in e.list && In(e, c, WantDelete)
  {
    if s.fini == Walking(None) { AllSeenOut(s, c); }
  }

  lemma {:induction false} AllSeenOut(s: State, c: Id)
    requires WalkInv(s) && s.fini == Walking(None) && c in s.list
    ensures In(s, c, Freed(true))
  {
    assert s.visited == s.list;
    var k :| 0 <= k < |s.list| && s.list[k] == c;
    assert In(s, s.visited[k], Freed(true));
  }

  lemma {:induction false} Prepend(s: State, step: Step, steps: seq<Step>)
    requires Enabled(s, step)
    ensures Go(s, [step] + steps) == Go(Do(s, step), steps)
  {
    if steps == [] {
      assert [step][..0] == [] && [step] + steps == [step];
    } else {
      var before, last := steps[..|steps| - 1], steps[|steps| - 1];
      Prepend(s, step, before);
      OneMore(s, [step] + before, last);
      OneMore(Do(s, step), before, last);
      assert [step] + steps == [step] + before + [last] && steps == before + [last];
    }
  }

  lemma {:induction false} OneMore(s: State, steps: seq<Step>, last: Step)
    ensures Go(s, steps + [last]) == var t := Go(s, steps);
            if t.Some? && Enabled(t.value, last) then Some(Do(t.value, last)) else None
  {
    assert (steps + [last])[..|steps|] == steps;
  }

  lemma {:induction false} WayToEnd(s: State) returns (steps: seq<Step>)
    requires Inv(s) && InWalk(s) && !SomeoneWantsDelete(s)
    ensures Go(s, steps).Some? && Go(s, steps).value.fini == Done
    decreases ToGo(s)
  {
    steps := [];
    if s.fini != Done {
      var step := ForwardEnabled(s);
      ForwardStep(s, step);
      NobodyWantsDelete(s, step);
      StepKeepsInv(s, step);
      var rest := WayToEnd(Do(s, step));
      Prepend(s, step, rest);
      steps := [step] + rest;
    }
  }

  /** Exactly when the walk can still end: no listed client is about to delete itself. */
  lemma {:induction false} WalkCanEnd(s: State)
    requires Inv(s) && Holding(s.fini)
    ensures (exists steps :: Go(s, steps).Some? && Go(s, steps).value.fini == Done) <==> !SomeoneWantsDelete(s)
  {
    if SomeoneWantsDelete(s) {
      var c :| c in s.list && In(s, c, WantDelete);
      forall steps | Go(s, steps).Some? ensures Go(s, steps).value.fini != Done {
        StuckForever(s, steps, c);
      }
    } else {
      var steps := WayToEnd(s);
    }
  }

  lemma {:induction false} Extend(steps: seq<Step>, s: State, step: Step) returns (more: seq<Step>, s': State)
    requires Go(INIT, steps) == Some(s) && Enabled(s, step)
    ensures s' == Do(s, step) && Go(INIT, more) == Some(s')
  {
    more, s' := steps + [step], Do(s, step);
    assert more[..|more| - 1] == steps;
  }

  lemma {:induction false} OneClientServed() returns (steps: seq<Step>, s: State)
    ensures Go(INIT, steps) == Some(s)
    ensures s == State(Accepting, Idle, Nobody, true, [0], 1, map[0 := Serving], {0}, {}, [], false, false)
  {
    steps, s := Extend([], INIT, Accept(0));
    steps, s := Extend(steps, s, AddLocks);
    steps, s := Extend(steps, s, Adds(0));
    steps, s := Extend(steps, s, Starts);
  }

  /** The shutdown reaches the only client, whatever it is about to do. */
  lemma {:induction false} ShutdownReaches(steps: seq<Step>, s: State, p: Phase) returns (more: seq<Step>, s': State)
    requires Go(INIT, steps) == Some(s) && p in {Serving, WantDelete}
    requires s == State(Accepting, Idle, Nobody, true, [0], 1, map[0 := p], {0}, {}, [], false, false)
    ensures Go(INIT, more) == Some(s')
    ensures s' ==
            State(Ended, Aborting(0, None, ConnType), FiniThread, true, [0], 1, map[0 := p], {0}, {0}, [0],
                  false, false)
  {
    more, s' := Extend(steps, s, AcceptFails);
    more, s' := Extend(more, s', FiniBegins);
    more, s' := Extend(more, s', ServerJoined);
    more, s' := WalkReaches(more, s', p);
  }

  lemma {:induction false} WalkReaches(steps: seq<Step>, s: State, p: Phase) returns (more: seq<Step>, s': State)
    requires Go(INIT, steps) == Some(s)
    requires s == State(Ended, Locking, Nobody, true, [0], 1, map[0 := p], {0}, {}, [], false, false)
    ensures Go(INIT, more) == Some(s')
    ensures s' ==
            State(Ended, Aborting(0, None, ConnType), FiniThread, true, [0], 1, map[0 := p], {0}, {0}, [0],
                  false, false)
  {
    more, s' := Extend(steps, s, FiniLocks);
    more, s' := Extend(more, s', Visits(0));
  }

  /** And a run can get there: a client that closes its connection just before the shutdown. */
  lemma {:induction false} WalkCanBlock() returns (steps: seq<Step>, s: State)
    ensures Go(INIT, steps) == Some(s)
    ensures Inv(s) && Holding(s.fini) && SomeoneWantsDelete(s)
  {
    steps, s := OneClientServed();
    steps, s := Extend(steps, s, Closes(0));
    steps, s := ShutdownReaches(steps, s, WantDelete);
    InitialInv();
    RunKeepsInv(INIT, steps);
    assert 0 in s.list && In(s, 0, WantDelete);
  }

  /** And so can the late read: a client that returns from the aborted receive at once. */
  lemma {:induction false} WalkCanReadFreed() returns (steps: seq<Step>, s: State)
    ensures Go(INIT, steps) == Some(s) && s.stale
  {
    steps, s := OneClientServed();
    steps, s := ShutdownReaches(steps, s, Serving);
    steps, s := Extend(steps, s, SeesAbort(0));
    steps, s := Extend(steps, s, Frees(0));
    steps, s := Extend(steps, s, Reads(0, false));
  }
}
