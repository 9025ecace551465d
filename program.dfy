/** The label table of a program: a dynamic array of labels that doubles
    its capacity as it fills, and `interpret`, which runs it. */
module LabelTable {
  import opened Base
  import opened Semantics
  import opened Statements
  import opened RegisterFile

  /** `label`: a name (`None` is NULL) and its statements. */
  datatype Label = Label(name: Option<string>, statements: StatementList)

  /** A slot no label has been written to: zeroed by `calloc`, and taken to
      be zeroed when `realloc` extends the table. */
  const EmptyLabel: Label := Label(None, Nil)

  /** Some label of `labels` is called `name`. */
  predicate HasLabel(labels: seq<Label>, name: string) {
    exists k | 0 <= k < |labels| :: labels[k].name == Some(name)
  }

  /** What `interpret` does with the labels of a program from state `st`:
      it checks that some label is called `start`, then runs the first
      label, whichever label is called `start`. */
  function Interpretation(labels: seq<Label>, st: State): Outcome
    requires WellFormed(st)
  {
    if !HasLabel(labels, "start") then Outcome(st, Some(MissingStart))
    else Run(st, Elements(labels[0].statements))
  }

  /** Without a `start` label nothing runs and nothing is printed. */
  lemma MissingStartRunsNothing(labels: seq<Label>, st: State)
    requires WellFormed(st)
    requires forall k | 0 <= k < |labels| :: labels[k].name != Some("start")
    ensures Interpretation(labels, st) == Outcome(st, Some(MissingStart))
  {
  }

  /** A `start` label anywhere in the table makes `interpret` run the
      statements of the first label. */
  lemma FirstLabelRuns(labels: seq<Label>, st: State, k: nat)
    requires WellFormed(st) && k < |labels| && labels[k].name == Some("start")
    ensures Interpretation(labels, st) == Run(st, Elements(labels[0].statements))
  {
  }

  /** `program`: `labels[0..len)` are the labels appended so far; the
      slots from `len` to `cap` are empty. */
  class Program {
    var labels: array<Label>
    var cap: nat
    var len: nat

    /** The table never is more than half full, so the slot `len` that the
        next append writes lies inside the array once it has grown. */
    ghost predicate Valid()
      reads this, labels
    {
      labels.Length == cap && len <= cap / 2
      && forall k | len <= k < cap :: labels[k] == EmptyLabel
    }

    /** The labels of the program, in the order they were appended. */
    ghost function Contents(): seq<Label>
      reads this, labels
      requires Valid()
    {
      labels[..len]
    }

    /** `pg_init`. */
    constructor Init(capacity: nat)
      ensures Valid() && cap == capacity && Contents() == []
      ensures fresh(labels)
    {
      labels := new Label[capacity](_ => EmptyLabel);
      cap := capacity;
      len := 0;
    }

    /** `pg_append_label`: with no capacity it does nothing; otherwise it
        doubles the capacity when `len + 1 >= cap / 2` and then writes the
        label to slot `len`. */
    method AppendLabel(lb: Label)
      requires Valid()
      modifies this, labels
      ensures Valid()
      ensures old(cap) == 0 ==> cap == 0 && Contents() == old(Contents())
      ensures old(cap) > 0 ==> Contents() == old(Contents()) + [lb]
      ensures cap == if old(cap) > 0 && old(len) + 1 >= old(cap) / 2 then 2 * old(cap) else old(cap)
    {
      if cap == 0 {
        return;
      }
      if len + 1 >= cap / 2 {
        Grow();
      }
      ghost var before := labels[..len];
      labels[len] := lb;
      len := len + 1;
      assert labels[..len] == before + [lb];
    }

    /** The `realloc` of `pg_append_label`: twice the capacity, the same
        labels, and empty slots after them. */
    method Grow()
      requires Valid() && cap > 0
      modifies this
      ensures labels.Length == cap == 2 * old(cap) && len == old(len) && fresh(labels)
      ensures labels[..len] == old(labels[..len])
      ensures forall k | len <= k < cap :: labels[k] == EmptyLabel
    {
      var grown := new Label[2 * cap](_ => EmptyLabel);
      forall k | 0 <= k < cap {
        grown[k] := labels[k];
      }
      labels := grown;
      cap := 2 * cap;
    }

    /** `find_label`: the loop over every slot of the table. */
    method FindLabel(name: string) returns (found: bool)
      requires Valid()
      ensures found <==> HasLabel(Contents(), name)
    {
      var i := 0;
      while i < cap
        invariant 0 <= i <= cap
        invariant forall k | 0 <= k < i :: labels[k].name != Some(name)
      {
        if labels[i].name.Some? && labels[i].name.value == name {
          assert Contents()[i] == labels[i];
          return true;
        }
        i := i + 1;
      }
      assert forall k | 0 <= k < len :: Contents()[k] == labels[k];
      return false;
    }

    /** `interpret`. */
    method Interpret(m: Machine) returns (e: Option<Error>)
      requires Valid() && m.Valid()
      modifies m.ints, m.strs, m`out
      ensures m.Valid()
      ensures Outcome(m.Current(), e) == Interpretation(Contents(), old(m.Current()))
    {
      var startExists := FindLabel("start");
      if !startExists {
        return Some(MissingStart);
      }
      assert Contents()[0] == labels[0];
      e := m.ParseStatements(labels[0].statements);
    }
  }
}
