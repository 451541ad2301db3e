/** The client's subscription object: cursor, bounded set of received sequences
    and view, proved equal to the replication without any such set. */
module WorkflowClient {
  import opened Options
  import opened RunView
  import opened ReplicatedLog

  const MAX_DEDUPE_SEQUENCES := 4096

  class Subscription {
    const run: string
    const audit: bool
    var active: bool
    var view: View
    var received: seq<nat>
    var presented: seq<Event>
    var cursor: Option<nat>
    ghost var applied: seq<Event>

    /** The set never holds a sequence beyond the cursor, and at most the bound. */
    predicate Valid() reads this {
      view.run == run && |received| <= MAX_DEDUPE_SEQUENCES && forall i :: 0 <= i < |received| ==>
        received[i] <= view.last
    }

    ghost function Abstract(): Sub reads this {
      Sub(audit, active, view, applied, presented, cursor)
    }

    constructor (initial: View, stored: Option<nat>, audit: bool)
      ensures Valid() && run == initial.run && Abstract() == Open(initial, stored, audit)
    {
      run, this.audit, active := initial.run, audit, true;
      var restored := if audit then 0 else ValueOr(stored, 0);
      view := if restored > initial.last then initial.(last := restored) else initial;
      received, presented, cursor, applied := [], [], None, [];
    }

    /** Take one event; a gap before it is replayed first where that is allowed. */
    method ProcessEvent(e: Event, allowGapRecovery: bool, deliveries: seq<Delivery>) returns (ok: bool)
      requires Valid()
      modifies this
      ensures Valid()
      ensures Result(Abstract(), ok)
           == if allowGapRecovery then Process(old(Abstract()), e, deliveries) else ProcessMissing(old(Abstract()), e)
      decreases allowGapRecovery, 0
    {
      hide Reduce, ShouldForward, Recover;
      if !active || e.run != run {
        return true;
      }
      if e.sequence in received || e.sequence <= view.last {
        return true;
      }
      var expected := view.last + 1;
      if e.sequence > expected {
        if !allowGapRecovery {
          return false;
        }
        ok := RecoverGap(expected, e.sequence - 1, deliveries);
        if !ok {
          return false;
        }
      }
      if e.sequence in received || e.sequence <= view.last {
        return true;
      }
      ReduceKeepsRun(view, e);
      var visible := ShouldForward(view, e);
      view := Reduce(view, e);
      applied := applied + [e];
      received := received + [e.sequence];
      TrimSequences();
      if !audit {
        cursor := Some(view.last);
      }
      if visible {
        presented := presented + [e];
      }
      return true;
    }

    /** Forget the oldest sequence once the bound is passed. */
    method TrimSequences()
      modifies this`received
      ensures received == if |old(received)| <= MAX_DEDUPE_SEQUENCES then old(received) else old(received)[1..]
    {
      if |received| > MAX_DEDUPE_SEQUENCES {
        received := received[1..];
      }
    }

    /** Replay the sequences `from` .. `through`, in order and without a hole. */
    method RecoverGap(from: nat, through: nat, deliveries: seq<Delivery>) returns (ok: bool)
      requires Valid() && from >= 1
      modifies this
      ensures Valid()
      ensures Result(Abstract(), ok) == Recover(old(Abstract()), from, through, from - 1, deliveries)
      decreases false, 1
    {
      hide ProcessMissing, Apply;
      var recovered: nat := from - 1;
      var i := 0;
      assert deliveries[0..] == deliveries;
      while i < |deliveries| && recovered < through
        invariant 0 <= i <= |deliveries| && Valid()
        invariant Recover(old(Abstract()), from, through, from - 1, deliveries)
               == Recover(Abstract(), from, through, recovered, deliveries[i..])
        decreases |deliveries| - i
      {
        assert deliveries[i..][0] == deliveries[i] && deliveries[i..][1..] == deliveries[i + 1..];
        match deliveries[i] {
          case Unsubscribed => active := false;
          case Frame(e) =>
            if from <= e.sequence <= through {
              if e.sequence != recovered + 1 {
                return false;
              }
              recovered := e.sequence;
              ok := ProcessEvent(e, false, []);
              if !ok {
                return false;
              }
            }
        }
        i := i + 1;
      }
      return recovered >= through;
    }

    method Unsubscribe()
      requires Valid()
      modifies this`active
      ensures Valid() && Abstract() == old(Abstract()).(active := false)
    {
      active := false;
    }

    /** Main result: the pipeline takes one step after another, and the bounded
        set of received sequences never changes what it does. */
    method Consume(steps: seq<Step>)
      requires Valid()
      modifies this
      ensures Valid() && Abstract() == Run(old(Abstract()), steps) && |received| <= 4096
    {
      hide Process;
      assert steps[..0] == [];
      for i := 0 to |steps|
        invariant Valid() && Abstract() == Run(old(Abstract()), steps[..i])
      {
        assert steps[..i + 1][..i] == steps[..i] && steps[..i + 1][i] == steps[i];
        match steps[i] {
          case Deliver(e, deliveries) => var _ := ProcessEvent(e, true, deliveries);
          case Unsubscribe => Unsubscribe();
        }
      }
      assert steps[..|steps|] == steps;
    }
  }
}
