/** The device table of src/ftpvita.c. Removing a device leaves its name behind in the slot. */
module Devices {

  const MAX_DEVICES: nat := 16

  datatype Slot = Slot(name: string, valid: bool)

  /** The first slot that is not valid; |slots| if there is none. */
  function FirstFree(slots: seq<Slot>): (i: nat)
    ensures i <= |slots| && (i < |slots| ==> !slots[i].valid)
    ensures forall k :: 0 <= k < i ==> slots[k].valid
  {
    if slots == [] || !slots[0].valid then 0 else 1 + FirstFree(slots[1..])
  }

  /** The first slot of this name, valid or stale; |slots| if there is none. */
  function FirstNamed(slots: seq<Slot>, name: string): (i: nat)
    ensures i <= |slots| && (i < |slots| ==> slots[i].name == name)
    ensures forall k :: 0 <= k < i ==> slots[k].name != name
  {
    if slots == [] || slots[0].name == name then 0 else 1 + FirstNamed(slots[1..], name)
  }

  function Added(slots: seq<Slot>, name: string): (seq<Slot>, int) {
    var i := FirstFree(slots);
    if i < |slots| then (slots[i := Slot(name, true)], 1) else (slots, 0)
  }

  function Deleted(slots: seq<Slot>, name: string): (seq<Slot>, int) {
    var i := FirstNamed(slots, name);
    if i < |slots| then (slots[i := slots[i].(valid := false)], 1) else (slots, 0)
  }

  class Table {
    const names: array<string>
    const valids: array<bool>

    ghost predicate Shape() { names.Length == MAX_DEVICES && valids.Length == MAX_DEVICES }

    ghost function Slots(): (slots: seq<Slot>)
      reads this, names, valids
      requires Shape()
      ensures |slots| == MAX_DEVICES
      ensures forall i :: 0 <= i < MAX_DEVICES ==> slots[i] == Slot(names[i], valids[i])
    {
      seq(MAX_DEVICES, i requires 0 <= i < MAX_DEVICES reads this, names, valids => Slot(names[i], valids[i]))
    }

    constructor ()
      ensures Shape() && fresh(names) && fresh(valids)
      ensures Slots() == seq(MAX_DEVICES, i => Slot("", false))
    {
      names := new string[MAX_DEVICES](i => "");
      valids := new bool[MAX_DEVICES](i => false);
    }

    /** The device part of ftpvita_init: the names of an earlier session stay. */
    method Init()
      requires Shape()
      modifies valids
      ensures forall i :: 0 <= i < MAX_DEVICES ==> Slots()[i] == Slot(old(Slots())[i].name, false)
    {
      for i := 0 to MAX_DEVICES
        invariant forall k :: 0 <= k < i ==> !valids[k]
      {
        valids[i] := false;
      }
    }

    /** ftpvita_add_device. */
    method AddDevice(devname: string) returns (ret: int)
      requires Shape()
      modifies names, valids
      ensures (Slots(), ret) == Added(old(Slots()), devname)
    {
      ghost var was := Slots();
      for i := 0 to MAX_DEVICES
        invariant forall k :: 0 <= k < i ==> was[k].valid
        invariant Slots() == was
      {
        if !valids[i] {
          names[i] := devname;
          valids[i] := true;
          assert FirstFree(was) == i;
          assert Slots() == was[i := Slot(devname, true)];
          return 1;
        }
      }
      return 0;
    }

    /** ftpvita_del_device. */
    method DelDevice(devname: string) returns (ret: int)
      requires Shape()
      modifies valids
      ensures (Slots(), ret) == Deleted(old(Slots()), devname)
    {
      ghost var was := Slots();
      for i := 0 to MAX_DEVICES
        invariant forall k :: 0 <= k < i ==> was[k].name != devname
        invariant Slots() == was
      {
        if devname == names[i] {
          valids[i] := false;
          assert FirstNamed(was, devname) == i;
          assert Slots() == was[i := was[i].(valid := false)];
          return 1;
        }
      }
      return 0;
    }
  }

  // ----- The table as a bounded set -----

  /** The devices that LIST shows. */
  function Names(slots: seq<Slot>): set<string> {
    set i | 0 <= i < |slots| && slots[i].valid :: slots[i].name
  }

  /** No slot before a valid one carries its name, not even a stale one. */
  ghost predicate NoneBefore(slots: seq<Slot>) {
    forall i, j :: 0 <= i < j < |slots| && slots[j].valid ==> slots[i].name != slots[j].name
  }

  function CountValid(slots: seq<Slot>): nat {
    if slots == [] then 0
    else CountValid(slots[..|slots| - 1]) + if slots[|slots| - 1].valid then 1 else 0
  }

  lemma {:induction false} NamesSplit(front: seq<Slot>, last: Slot)
    ensures Names(front + [last]) == Names(front) + if last.valid then {last.name} else {}
  {
    var slots := front + [last];
    assert slots[|front|] == last && forall i :: 0 <= i < |front| ==> slots[i] == front[i];
    forall n | n in Names(front) ensures n in Names(slots) {
      var i :| 0 <= i < |front| && front[i].valid && front[i].name == n;
      assert slots[i].valid;
    }
  }

  lemma {:induction false} AsManyNames(slots: seq<Slot>)
    requires NoneBefore(slots)
    ensures |Names(slots)| == CountValid(slots)
  {
    if slots != [] {
      var front, last := slots[..|slots| - 1], slots[|slots| - 1];
      AsManyNames(front);
      assert slots == front + [last];
      NamesSplit(front, last);
      assert last.valid ==> last.name !in Names(front);
    }
  }

  lemma {:induction false} Full(slots: seq<Slot>)
    ensures CountValid(slots) <= |slots|
    ensures CountValid(slots) == |slots| <==> FirstFree(slots) == |slots|
  {
    if slots != [] {
      var front := slots[..|slots| - 1];
      Full(front);
      assert forall k :: 0 <= k < |front| ==> front[k] == slots[k];
      var i, j := FirstFree(slots), FirstFree(front);
      assert i < |front| ==> j == i;
      assert j < |front| ==> i == j;
    }
  }

  lemma {:induction false} FilledNames(slots: seq<Slot>, i: nat, name: string)
    requires i < |slots| && !slots[i].valid
    ensures Names(slots[i := Slot(name, true)]) == Names(slots) + {name}
  {
    var slots' := slots[i := Slot(name, true)];
    assert slots'[i].valid;
    forall n | n in Names(slots) ensures n in Names(slots') {
      var k :| 0 <= k < |slots| && slots[k].valid && slots[k].name == n;
      assert slots'[k].valid;
    }
  }

  lemma {:induction false} FilledBefore(slots: seq<Slot>, i: nat, name: string)
    requires NoneBefore(slots) && i == FirstFree(slots) < |slots|
    ensures NoneBefore(slots[i := Slot(name, true)]) <==> name !in Names(slots)
  {
    var slots' := slots[i := Slot(name, true)];
    if name in Names(slots) {
      var k :| 0 <= k < |slots| && slots[k].valid && slots[k].name == name;
      assert slots'[k].valid && slots'[i].valid && slots'[k].name == slots'[i].name;
    } else {
      forall a, b | 0 <= a < b < |slots| && slots'[b].valid ensures slots'[a].name != slots'[b].name {
        assert a < i ==> slots[a].valid;
        assert b != i ==> slots[b].valid && slots[b].name in Names(slots);
        assert a < i ==> slots[a].name in Names(slots);
      }
    }
  }

  /** Adding fails exactly when the set is full, and otherwise adds the name to it; the invariant
      survives exactly if the name was not there or the table was full. */
  lemma {:induction false} AddRefines(slots: seq<Slot>, name: string)
    requires |slots| == MAX_DEVICES && NoneBefore(slots)
    ensures var (slots', ret) := Added(slots, name);
      && (ret == 0 <==> |Names(slots)| == 16)
      && |Names(slots)| <= 16
      && Names(slots') == (if ret == 0 then Names(slots) else Names(slots) + {name})
      && (NoneBefore(slots') <==> name !in Names(slots) || |Names(slots)| == MAX_DEVICES)
  {
    AsManyNames(slots);
    Full(slots);
    var i := FirstFree(slots);
    if i < |slots| {
      FilledNames(slots, i, name);
      FilledBefore(slots, i, name);
    }
  }

  /** Deleting always clears the valid slot: no stale one comes before it. */
  lemma {:induction false} DelRefines(slots: seq<Slot>, name: string)
    requires |slots| == MAX_DEVICES && NoneBefore(slots)
    ensures var (slots', ret) := Deleted(slots, name);
      && NoneBefore(slots')
      && Names(slots') == Names(slots) - {name}
      && (name in Names(slots) ==> ret == 1)
      && (ret == 0 <==> forall i :: 0 <= i < |slots| ==> slots[i].name != name)
  {
    var i := FirstNamed(slots, name);
    if i < |slots| {
      var slots' := slots[i := slots[i].(valid := false)];
      forall n | n in Names(slots) && n != name ensures n in Names(slots') {
        var k :| 0 <= k < |slots| && slots[k].valid && slots[k].name == n;
        assert slots'[k].valid;
      }
      assert forall k :: i < k < |slots| && slots[k].valid ==> slots[i].name != slots[k].name;
    }
  }

  // ----- Whole runs -----

  datatype Op = Add(name: string) | Del(name: string)

  function Run(slots: seq<Slot>, ops: seq<Op>): seq<Slot> {
    if ops == [] then slots
    else
      var before := Run(slots, ops[..|ops| - 1]);
      match ops[|ops| - 1]
      case Add(name) => Added(before, name).0
      case Del(name) => Deleted(before, name).0
  }

  /** The same on a set of at most sixteen names. */
  function SetRun(ops: seq<Op>): set<string> {
    if ops == [] then {}
    else
      var before := SetRun(ops[..|ops| - 1]);
      match ops[|ops| - 1]
      case Add(name) => if |before| < MAX_DEVICES then before + {name} else before
      case Del(name) => before - {name}
  }

  /** No name is added while it is there. */
  ghost predicate NoDuplicates(ops: seq<Op>) {
    forall k :: 0 <= k < |ops| && ops[k].Add? ==> ops[k].name !in SetRun(ops[..k])
  }

  /** After any such run from an initialized table, whatever names are left in it, the table is
      exactly the bounded set. */
  lemma {:induction false} RunRefines(slots: seq<Slot>, ops: seq<Op>)
    requires |slots| == MAX_DEVICES && forall i :: 0 <= i < |slots| ==> !slots[i].valid
    requires NoDuplicates(ops)
    ensures |Run(slots, ops)| == MAX_DEVICES && NoneBefore(Run(slots, ops))
    ensures Names(Run(slots, ops)) == SetRun(ops) && |SetRun(ops)| <= MAX_DEVICES
  {
    if ops != [] {
      var front, last := ops[..|ops| - 1], ops[|ops| - 1];
      assert NoDuplicates(front) by {
        forall k | 0 <= k < |front| && front[k].Add? ensures front[k].name !in SetRun(front[..k]) {
          assert ops[k] == front[k] && front[..k] == ops[..k];
        }
      }
      RunRefines(slots, front);
      var before := Run(slots, front);
      AddRefines(before, last.name);
      DelRefines(before, last.name);
      assert last.Add? ==> last.name !in SetRun(front);
      AsManyNames(Run(slots, ops));
      Full(Run(slots, ops));
    }
  }

  /** With a duplicate it is not: one removal then leaves the name in the table. */
  lemma {:induction false} DuplicateStays(name: string)
    ensures var slots := seq(MAX_DEVICES, i => Slot("", false));
      name in Names(Deleted(Added(Added(slots, name).0, name).0, name).0)
  {
    var slots := seq(MAX_DEVICES, i => Slot("", false));
    var one := Added(slots, name).0;
    assert one == slots[0 := Slot(name, true)];
    var two := Added(one, name).0;
    assert FirstFree(one) == 1;
    assert two == one[1 := Slot(name, true)];
    assert Deleted(two, name).0[1].valid;
  }
}
