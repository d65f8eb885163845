/** The fixed-slot signal surface: 64 slots, active ones named, inactive ones empty. */
module SignalSurface {
  import opened Common

  const MAX_SIGNALS := 64

  datatype SurfaceFault =
    | WrongWidth
    | BlankActiveSlot(slot: nat)
    | NamedInactiveSlot(slot: nat)
    | RepeatedSignal
    | WrongActiveCount

  predicate Blank(s: string) {
    Strip(s) == ""
  }

  function ActiveCount(mask: seq<bool>): nat {
    if mask == [] then 0 else ActiveCount(mask[..|mask| - 1]) + if mask[|mask| - 1] then 1 else 0
  }

  /** Names in the active slots among the first n, in slot order. */
  function ActiveIds(ids: seq<string>, mask: seq<bool>, n: nat): seq<string>
    requires n <= |ids| == |mask|
  {
    if n == 0 then [] else ActiveIds(ids, mask, n - 1) + if mask[n - 1] then [ids[n - 1]] else []
  }

  /** First slot at or after i whose name does not fit its mask. */
  function SlotFault(ids: seq<string>, mask: seq<bool>, i: nat): Option<SurfaceFault>
    requires i <= |ids| == |mask|
    decreases |ids| - i
  {
    if i == |ids| then None
    else if mask[i] && Blank(ids[i]) then Some(BlankActiveSlot(i))
    else if !mask[i] && ids[i] != "" then Some(NamedInactiveSlot(i))
    else SlotFault(ids, mask, i + 1)
  }

  function Members(s: seq<string>): set<string> {
    set x | x in s
  }

  function Fault(ids: seq<string>, mask: seq<bool>, activeK: int): Option<SurfaceFault> {
    if |ids| != MAX_SIGNALS || |mask| != MAX_SIGNALS then Some(WrongWidth)
    else
      var slot := SlotFault(ids, mask, 0);
      var active := ActiveIds(ids, mask, |ids|);
      if slot.Some? then slot
      else if |Members(active)| != |active| then Some(RepeatedSignal)
      else if ActiveCount(mask) != activeK then Some(WrongActiveCount)
      else None
  }

  /** The name has a character other than white space. */
  ghost predicate Visible(name: string) {
    exists k :: 0 <= k < |name| && !Space(name[k])
  }

  /** The name of slot i fits its mask. */
  ghost predicate SlotOk(ids: seq<string>, mask: seq<bool>, i: nat)
    requires i < |ids| == |mask|
  {
    if mask[i] then Visible(ids[i]) else ids[i] == ""
  }

  /** No two active slots among the first n share a name. */
  ghost predicate NamesDiffer(ids: seq<string>, mask: seq<bool>, n: nat)
    requires n <= |ids| == |mask|
  {
    forall i, j :: 0 <= i < j < n && mask[i] && mask[j] ==> ids[i] != ids[j]
  }

  /** What a surface is meant to be. */
  ghost predicate WellFormed(ids: seq<string>, mask: seq<bool>, activeK: int) {
    && |ids| == 64 == |mask|
    && (forall i :: 0 <= i < 64 ==> SlotOk(ids, mask, i))
    && NamesDiffer(ids, mask, 64)
    && activeK == |set i | 0 <= i < 64 && mask[i]|
  }

  lemma BlankIff(name: string)
    ensures Blank(name) <==> !Visible(name)
  {
    StripEmptyIff(name);
  }

  lemma {:induction false} ActiveCountIs(mask: seq<bool>)
    ensures ActiveCount(mask) == |set i | 0 <= i < |mask| && mask[i]|
  {
    if mask != [] {
      var last := |mask| - 1;
      ActiveCountIs(mask[..last]);
      var before := set i | 0 <= i < last && mask[..last][i];
      assert before == set i | 0 <= i < last && mask[i];
      assert (set i | 0 <= i < |mask| && mask[i]) == if mask[last] then before + {last} else before;
    }
  }

  /** Slot j is the first from i on that does not fit its mask. */
  ghost predicate FirstUnfit(ids: seq<string>, mask: seq<bool>, i: nat, j: nat)
    requires |ids| == |mask|
  {
    i <= j < |ids| && !SlotOk(ids, mask, j) && forall k :: i <= k < j ==> SlotOk(ids, mask, k)
  }

  function Complaint(mask: seq<bool>, j: nat): SurfaceFault
    requires j < |mask|
  {
    if mask[j] then BlankActiveSlot(j) else NamedInactiveSlot(j)
  }

  lemma {:induction false} SlotFaultIff(ids: seq<string>, mask: seq<bool>, i: nat)
    requires i <= |ids| == |mask|
    ensures SlotFault(ids, mask, i) == None <==> forall j :: i <= j < |ids| ==> SlotOk(ids, mask, j)
    ensures SlotFault(ids, mask, i).Some? ==>
      exists j: nat :: FirstUnfit(ids, mask, i, j) && SlotFault(ids, mask, i) == Some(Complaint(mask, j))
    decreases |ids| - i
  {
    hide SlotOk, SlotFault, Complaint;
    if i == |ids| {
      NoMoreSlots(ids, mask);
    } else {
      SlotStep(ids, mask, i);
      SlotFaultIff(ids, mask, i + 1);
      if !SlotOk(ids, mask, i) {
        assert FirstUnfit(ids, mask, i, i);
      } else if SlotFault(ids, mask, i + 1).Some? {
        var j: nat :| FirstUnfit(ids, mask, i + 1, j) && SlotFault(ids, mask, i + 1) == Some(Complaint(mask, j));
        assert FirstUnfit(ids, mask, i, j);
      }
    }
  }

  lemma NoMoreSlots(ids: seq<string>, mask: seq<bool>)
    requires |ids| == |mask|
    ensures SlotFault(ids, mask, |ids|) == None
  {
  }

  lemma SlotStep(ids: seq<string>, mask: seq<bool>, i: nat)
    requires i < |ids| == |mask|
    ensures SlotFault(ids, mask, i)
         == if SlotOk(ids, mask, i) then SlotFault(ids, mask, i + 1)
            else Some(Complaint(mask, i))
  {
    BlankIff(ids[i]);
    hide Blank, Visible;
  }

  lemma {:induction false} ActiveIdsMembers(ids: seq<string>, mask: seq<bool>, n: nat, x: string)
    requires n <= |ids| == |mask|
    ensures x in ActiveIds(ids, mask, n) <==> exists i :: 0 <= i < n && mask[i] && ids[i] == x
  {
    if n > 0 { ActiveIdsMembers(ids, mask, n - 1, x); }
  }

  lemma MembersSnoc(s: seq<string>, x: string)
    ensures |Members(s + [x])| == |Members(s)| + if x in s then 0 else 1
  {
    if x in s {
      assert Members(s + [x]) == Members(s);
    } else {
      assert Members(s + [x]) == Members(s) + {x};
    }
  }

  lemma {:induction false} MembersBound(s: seq<string>)
    ensures |Members(s)| <= |s|
  {
    if s != [] {
      var init, last := s[..|s| - 1], s[|s| - 1];
      MembersBound(init);
      MembersSnoc(init, last);
      assert s == init + [last];
    }
  }

  /** The cardinality test finds a repeat exactly when two active slots share a name. */
  lemma {:induction false} RepeatIff(ids: seq<string>, mask: seq<bool>, n: nat)
    requires n <= |ids| == |mask|
    ensures var active := ActiveIds(ids, mask, n);
      |Members(active)| == |active| <==> NamesDiffer(ids, mask, n)
  {
    if n > 0 {
      RepeatIff(ids, mask, n - 1);
      var before := ActiveIds(ids, mask, n - 1);
      MembersBound(before);
      if mask[n - 1] {
        MembersSnoc(before, ids[n - 1]);
        ActiveIdsMembers(ids, mask, n - 1, ids[n - 1]);
      } else {
        assert ActiveIds(ids, mask, n) == before;
      }
    }
  }

  /** The validator accepts exactly the well-formed surfaces. */
  lemma AcceptsIff(ids: seq<string>, mask: seq<bool>, activeK: int)
    ensures Fault(ids, mask, activeK) == None <==> WellFormed(ids, mask, activeK)
    ensures WellFormed(ids, mask, activeK) ==> |ids| == |mask| == MAX_SIGNALS
  {
    hide ActiveIds, ActiveCount, SlotFault, Members, SlotOk, NamesDiffer;
    if |ids| == MAX_SIGNALS == |mask| {
      SlotFaultIff(ids, mask, 0);
      RepeatIff(ids, mask, MAX_SIGNALS);
      ActiveCountIs(mask);
    }
  }

  /** The first complaint: width, then the first slot that does not fit its mask, then a repeat, then the count. */
  lemma FirstComplaint(ids: seq<string>, mask: seq<bool>, activeK: int)
    ensures Fault(ids, mask, activeK) == Some(WrongWidth) <==> !(|ids| == 64 == |mask|)
    ensures |ids| == 64 == |mask| ==>
      if exists j :: 0 <= j < 64 && !SlotOk(ids, mask, j) then
        exists j: nat :: FirstUnfit(ids, mask, 0, j)
          && Fault(ids, mask, activeK) == Some(if mask[j] then BlankActiveSlot(j) else NamedInactiveSlot(j))
      else if !NamesDiffer(ids, mask, 64) then Fault(ids, mask, activeK) == Some(RepeatedSignal)
      else Fault(ids, mask, activeK)
             == if |set i | 0 <= i < 64 && mask[i]| != activeK then Some(WrongActiveCount) else None
  {
    hide ActiveIds, ActiveCount, SlotFault, Members, SlotOk, NamesDiffer;
    if |ids| == 64 == |mask| {
      SlotFaultIff(ids, mask, 0);
      RepeatIff(ids, mask, 64);
      ActiveCountIs(mask);
    }
  }
}
