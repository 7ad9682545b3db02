/** Conservation of slots over runs. */
module TransferCounts {
  import opened Runs
  import opened Registry
  import opened TransferRuns
  import opened TransferTheorems

  ghost predicate TakesSlot(s: State, i: nat)
    requires Shaped(s)
  {
    i < MAX_TRANSFERS && Occupied(s.pending[i])
  }

  ghost predicate HasFate(s: State, f: Fate, id: nat)
    requires Shaped(s)
  {
    1 <= id <= s.counter && FateOf(s.histories[id - 1]) == f
  }

  ghost predicate IsUnfinished(s: State, id: nat)
    requires Shaped(s)
  {
    1 <= id <= s.counter && !Final(FateOf(s.histories[id - 1]))
  }

  ghost function OccupiedSlots(s: State): set<nat>
    requires Shaped(s)
  {
    set i: nat | i < MAX_TRANSFERS && TakesSlot(s, i)
  }

  /** The requests that have come to this end. */
  ghost function WithFate(s: State, f: Fate): set<nat>
    requires Shaped(s)
  {
    set id: nat | id <= s.counter && HasFate(s, f, id)
  }

  ghost function Unfinished(s: State): set<nat>
    requires Shaped(s)
  {
    set id: nat | id <= s.counter && IsUnfinished(s, id)
  }

  // ---------------------------------------------------------------- counting

  function UpTo(n: nat): (r: set<nat>)
    ensures |r| == n
    ensures forall k: nat {:trigger k in r} :: k in r <==> 1 <= k <= n
  {
    if n == 0 then {} else UpTo(n - 1) + {n}
  }

  lemma {:induction false} ImageSize(xs: set<nat>, f: seq<nat>)
    requires forall i :: i in xs ==> i < |f|
    requires forall i, j :: i in xs && j in xs && i != j ==> f[i] != f[j]
    ensures |set i | i in xs :: f[i]| == |xs|
    decreases |xs|
  {
    if xs != {} {
      var x :| x in xs;
      ImageSize(xs - {x}, f);
      assert (set i | i in xs :: f[i]) == (set i | i in xs - {x} :: f[i]) + {f[x]};
    }
  }

  lemma {:induction false} Subset(xs: set<nat>, ys: set<nat>)
    requires xs <= ys
    ensures |xs| <= |ys|
    ensures xs != ys ==> |xs| < |ys|
    decreases |xs|
  {
    if xs != {} {
      var x :| x in xs;
      Subset(xs - {x}, ys - {x});
      assert xs - {x} + {x} == xs && ys - {x} + {x} == ys;
    } else if ys != {} {
      var y :| y in ys;
    }
  }

  lemma FourParts(n: nat, a: set<nat>, b: set<nat>, c: set<nat>, d: set<nat>)
    requires forall k: nat {:trigger k in a} {:trigger k in b} {:trigger k in c} {:trigger k in d} ::
      k in a || k in b || k in c || k in d <==> 1 <= k <= n
    requires a !! b && (a + b) !! c && (a + b + c) !! d
    ensures n == |a| + |b| + |c| + |d|
  {
    var all := UpTo(n);
    hide UpTo;
    assert all == a + b + c + d;
  }

  // ---------------------------------------------------------------- slots and requests

  lemma OccupiedIsUnfinished(s: State, i: nat)
    requires Inv(s) && TakesSlot(s, i)
    ensures IsUnfinished(s, s.origin[i])
  {
    assert SlotOk(s, i);
    hide FateOf;
  }

  lemma OriginsDiffer(s: State, i: nat, j: nat)
    requires Inv(s) && TakesSlot(s, i) && TakesSlot(s, j) && i != j
    ensures s.origin[i] != s.origin[j]
  {
  }

  lemma UnfinishedIsOccupied(s: State, id: nat) returns (i: nat)
    requires Inv(s) && IsUnfinished(s, id)
    ensures TakesSlot(s, i) && s.origin[i] == id
  {
    RequestFate(s, id);
    i := SlotOf(s.pending, s.origin, id);
    hide Inv, FateOf;
  }

  /** Occupied slots and unfinished requests correspond one to one. */
  lemma SlotsAreUnfinished(s: State)
    requires Inv(s)
    ensures |OccupiedSlots(s)| == |Unfinished(s)|
  {
    var xs, ys := OccupiedSlots(s), Unfinished(s);
    assert forall i :: i in xs ==> i < |s.origin| && TakesSlot(s, i);
    hide Inv, TakesSlot, IsUnfinished;
    forall i, j | i in xs && j in xs && i != j ensures s.origin[i] != s.origin[j] {
      OriginsDiffer(s, i, j);
    }
    ImageSize(xs, s.origin);
    ImageIsUnfinished(s);
  }

  lemma ImageIsUnfinished(s: State)
    requires Inv(s)
    ensures (forall i :: i in OccupiedSlots(s) ==> i < |s.origin|)
    ensures (set i | i in OccupiedSlots(s) :: s.origin[i]) == Unfinished(s)
  {
    var xs, ys := OccupiedSlots(s), Unfinished(s);
    forall i | i in xs ensures s.origin[i] in ys {
      OccupiedIsUnfinished(s, i);
      hide Inv;
    }
    forall id | id in ys ensures exists i :: i in xs && s.origin[i] == id {
      var i := UnfinishedIsOccupied(s, id);
      hide Inv;
    }
    hide Inv;
  }

  lemma FatesDiffer(s: State)
    requires Inv(s)
    ensures s.counter == |Unfinished(s)| + |WithFate(s, Taken)| + |WithFate(s, Answered)| + |WithFate(s, Lost)|
  {
    assert Shaped(s);
    hide Inv, FateOf;
    FourParts(s.counter, Unfinished(s), WithFate(s, Taken), WithFate(s, Answered), WithFate(s, Lost));
  }

  /**
   Slot conservation: in every reachable state the occupied slots are the requests created
   less those accepted, those whose rejection was delivered, and those dropped by a logout;
   there are never more than MAX_TRANSFERS.
   */
  lemma SlotConservation(run: seq<State>)
    requires Run(run)
    ensures var s := Last(run);
            && Shaped(s)
            && |OccupiedSlots(s)| == s.counter - |WithFate(s, Taken)| - |WithFate(s, Answered)| - |WithFate(s, Lost)|
            && |OccupiedSlots(s)| <= MAX_TRANSFERS
  {
    RunInv(run);
    var s := Last(run);
    SlotsAreUnfinished(s);
    FatesDiffer(s);
    AtMostAll(s);
  }

  function AllSlots(n: nat): (r: set<nat>)
    ensures |r| == n
    ensures forall k: nat {:trigger k in r} :: k in r <==> k < n
  {
    if n == 0 then {} else AllSlots(n - 1) + {n - 1}
  }

  lemma AtMost(xs: set<nat>, n: nat)
    requires forall i :: i in xs ==> i < n
    ensures |xs| <= n
    ensures |xs| == n <==> forall i: nat :: i < n ==> i in xs
  {
    var all := AllSlots(n);
    hide AllSlots;
    Subset(xs, all);
    if forall i: nat :: i < n ==> i in xs {
      assert xs == all;
    }
  }

  lemma AtMostAll(s: State)
    requires Shaped(s)
    ensures |OccupiedSlots(s)| <= MAX_TRANSFERS
    ensures |OccupiedSlots(s)| == MAX_TRANSFERS <==> forall i: nat :: i < MAX_TRANSFERS ==> TakesSlot(s, i)
  {
    hide TakesSlot, Shaped;
    AtMost(OccupiedSlots(s), MAX_TRANSFERS);
    assert forall i: nat :: i < MAX_TRANSFERS ==> (i in OccupiedSlots(s) <==> TakesSlot(s, i));
  }

  lemma FreeMeansNotTaken(s: State)
    requires Shaped(s)
    ensures FirstFree(s.pending) == MAX_TRANSFERS <==> forall i: nat :: i < MAX_TRANSFERS ==> TakesSlot(s, i)
  {
    var k := FirstFree(s.pending);
    if k < MAX_TRANSFERS {
      assert !TakesSlot(s, k);
    }
  }

  /** A request is refused exactly when all slots are taken, and then nothing changes. */
  lemma RefusedWhenFull(s: State, pid: Pid, sender: string, dest: string, filename: string)
    requires Shaped(s)
    ensures Created(s, pid, sender, dest, filename) == s <==> |OccupiedSlots(s)| == MAX_TRANSFERS
    ensures Created(s, pid, sender, dest, filename) != s ==>
      Created(s, pid, sender, dest, filename).counter == s.counter + 1
  {
    AtMostAll(s);
    FreeMeansNotTaken(s);
    hide OccupiedSlots, TakesSlot, CreateSlot;
  }
}
