/** Collecting the cases of a lifecycle run before it starts (fsq_agent/execution/lifecycle.py:136-174). */
module LifecycleCollect {
  import opened Wrappers
  import opened LifecyclePlan

  /** The cases of a tree, each before the cases its hooks run. */
  function Visits(t: Tree): seq<CasePath>
    decreases t, 1, 0
  {
    [t.path] + GroupVisits(t.cfgStart, |t.cfgStart|) + GroupVisits(t.start, |t.start|)
    + GroupVisits(t.complete, |t.complete|) + GroupVisits(t.cfgComplete, |t.cfgComplete|)
  }

  function GroupVisits(branches: seq<Branch>, n: nat): seq<CasePath>
    requires n <= |branches|
    decreases branches, 0, n
  {
    if n == 0 then [] else GroupVisits(branches, n - 1) + BranchVisits(branches[n - 1])
  }

  function BranchVisits(b: Branch): seq<CasePath>
    decreases b, 0, 0
  {
    if b.CaseBranch? then Visits(b.child) else []
  }

  lemma {:induction false} GroupVisitsConcat(a: seq<Branch>, b: seq<Branch>, n: nat)
    requires n <= |b|
    ensures GroupVisits(a + b, |a| + n) == GroupVisits(a, |a|) + GroupVisits(b, n)
    decreases n
  {
    if n == 0 {
      GroupVisitsPrefix(a, b, |a|);
    } else {
      GroupVisitsConcat(a, b, n - 1);
    }
  }

  lemma {:induction false} GroupVisitsPrefix(a: seq<Branch>, b: seq<Branch>, n: nat)
    requires n <= |a|
    ensures GroupVisits(a + b, n) == GroupVisits(a, n)
    decreases n
  {
    if n > 0 {
      GroupVisitsPrefix(a, b, n - 1);
    }
  }

  lemma {:induction false} UnfoldSlotsConcat(files: Files, cfg: Config, a: seq<Slot>, b: seq<Slot>,
                                             stack: seq<CasePath>)
    ensures var x, y := UnfoldSlots(files, cfg, a, stack), UnfoldSlots(files, cfg, b, stack);
            UnfoldSlots(files, cfg, a + b, stack) == if x.Some? && y.Some? then Some(x.value + y.value) else None
    decreases |a|
  {
    if a == [] {
      assert a + b == b;
      var y := UnfoldSlots(files, cfg, b, stack);
      assert y.Some? ==> [] + y.value == y.value;
    } else {
      assert (a + b)[1..] == a[1..] + b;
      hide UnfoldSlot;
      UnfoldSlotsConcat(files, cfg, a[1..], b, stack);
      assert (a + b)[0] == a[0];
      var first, y := UnfoldSlot(files, cfg, a[0], stack), UnfoldSlots(files, cfg, b, stack);
      var x := UnfoldSlots(files, cfg, a[1..], stack);
      if first.Some? && x.Some? && y.Some? {
        assert [first.value] + x.value + y.value == [first.value] + (x.value + y.value);
      }
    }
  }

  /** The loop over all of a case's hooks visits its four groups in turn. */
  lemma HookActionsUnfold(files: Files, cfg: Config, path: CasePath, stack: seq<CasePath>, root: bool)
    requires path in files && path !in stack
    ensures var all := UnfoldSlots(files, cfg, HookActions(files, cfg, path, root), stack + [path]);
            var t := Unfold(files, cfg, path, stack, root);
            && (all.Some? <==> t.Some?)
            && (t.Some? ==> Visits(t.value) == [path] + GroupVisits(all.value, |all.value|))
  {
    hide Slots, UnfoldSlots, Visits, GroupVisits;
    var below := stack + [path];
    var a, b, c := StartSlots(cfg, root), Slots(files[path].onStart), Slots(files[path].onComplete);
    var d := CompleteSlots(cfg, root);
    hide StartSlots, CompleteSlots;
    UnfoldSlotsConcat(files, cfg, a, b, below);
    UnfoldSlotsConcat(files, cfg, a + b, c, below);
    UnfoldSlotsConcat(files, cfg, a + b + c, d, below);
    var ot := Unfold(files, cfg, path, stack, root);
    if ot.Some? {
      assert ot.value.path == path;
      VisitsInOne(ot.value);
    }
  }

  lemma VisitsInOne(t: Tree)
    ensures var all := t.cfgStart + t.start + t.complete + t.cfgComplete;
            Visits(t) == [t.path] + GroupVisits(all, |all|)
  {
    GroupVisitsConcat(t.cfgStart, t.start, |t.start|);
    GroupVisitsConcat(t.cfgStart + t.start, t.complete, |t.complete|);
    GroupVisitsConcat(t.cfgStart + t.start + t.complete, t.cfgComplete, |t.cfgComplete|);
    hide GroupVisits;
  }

  lemma GroupVisitsNext(seen: seq<CasePath>, branches: seq<Branch>, k: nat)
    requires k < |branches|
    ensures seen + GroupVisits(branches, k) + BranchVisits(branches[k]) == seen + GroupVisits(branches, k + 1)
  {
    hide BranchVisits;
  }

  class Collector {
    const files: Files
    const cfg: Config
    var cases: seq<CasePath>

    constructor (files: Files, cfg: Config)
      ensures this.files == files && this.cfg == cfg && cases == []
    {
      this.files, this.cfg, cases := files, cfg, [];
    }

    /** collect; false stands for the exception: recursion, or a file that does not exist. */
    method Collect(path: CasePath, stack: seq<CasePath>, includeConfig: bool) returns (ok: bool)
      modifies this
      ensures var t := Unfold(files, cfg, path, stack, includeConfig);
              && (ok <==> t.Some?)
              && (ok ==> cases == old(cases) + Visits(t.value))
      decreases Left(files, stack), 0
    {
      hide HookActions, Visits, UnfoldSlots, UnfoldSlot, BranchVisits, Left, Slots;
      if path in stack || path !in files {
        return false;
      }
      hide Unfold;
      LeftShrinks(files, stack, path);
      HookActionsUnfold(files, cfg, path, stack, includeConfig);
      var below := stack + [path];
      cases := cases + [path];
      var actions := HookActions(files, cfg, path, includeConfig);
      ghost var all, c0 := UnfoldSlots(files, cfg, actions, below), old(cases) + [path];
      assert all.Some? ==> cases == c0 + GroupVisits(all.value, 0);
      hide GroupVisits;
      for k := 0 to |actions|
        invariant all.Some? ==> cases == c0 + GroupVisits(all.value, k)
        invariant forall j | 0 <= j < k :: UnfoldSlot(files, cfg, actions[j], below).Some?
      {
        var done := CollectAction(actions[k], below);
        if all.Some? {
          UnfoldSlotsAt(files, cfg, actions, below, k);
          GroupVisitsNext(c0, all.value, k);
        }
        if !done {
          return false;
        }
      }
      if all.None? {
        ghost var k := UnfoldSlotsFails(files, cfg, actions, below);
        assert false;
      }
      ok := true;
      assert c0 + GroupVisits(all.value, |actions|) == old(cases) + ([path] + GroupVisits(all.value, |actions|));
    }

    method CollectAction(slot: Slot, stack: seq<CasePath>) returns (ok: bool)
      modifies this
      ensures var b := UnfoldSlot(files, cfg, slot, stack);
              && (ok <==> b.Some?)
              && (ok ==> cases == old(cases) + BranchVisits(b.value))
      decreases Left(files, stack), 1
    {
      match slot.act {
        case RunShell(_) =>
          ok := true;
        case RunCase(target) =>
          ok := Collect(target, stack, false);
      }
    }
  }
}
