/** Which recipients a rewrap removes, refreshes and adds. */
module RewrapPlan {
  import opened Wrappers
  import opened Wire
  import Ordering

  datatype Plan = Plan(remove: seq<string>, stale: seq<string>, add: seq<string>, rotateKey: bool,
                       clearHistory: bool)

  datatype Options = Options(rotateKey: bool, clearHistory: bool)

  /** The strings of `a` that `b` does not contain, in order. */
  function Minus(a: seq<string>, b: seq<string>): seq<string> {
    if a == [] then []
    else
      var earlier, last := Minus(a[..|a| - 1], b), a[|a| - 1];
      if last in b then earlier else earlier + [last]
  }

  function BuildPlan(current: seq<string>, target: seq<string>, stale: seq<string>, options: Options): Plan {
    Plan(Minus(current, target), stale, Minus(target, current), options.rotateKey, options.clearHistory)
  }

  function FindItem(items: seq<WrapItem>, handle: string): Option<WrapItem> {
    if items == [] then None
    else if items[0].recipientHandle == handle then Some(items[0])
    else FindItem(items[1..], handle)
  }

  /** The members whose wrap was made for another key id. */
  function CollectStale(items: seq<WrapItem>, members: seq<Member>): seq<string> {
    if members == [] then []
    else
      var earlier, last := CollectStale(items, members[..|members| - 1]), members[|members| - 1];
      match FindItem(items, last.handle)
      case None => earlier
      case Some(wrap) => if wrap.kid != last.kid then earlier + [last.handle] else earlier
  }

  function Itself(): string -> string {
    (s: string) => s
  }

  function TargetHandles(members: seq<Member>): seq<string> {
    Ordering.SortedBy(Itself(), MemberHandles(members))
  }

  function PlanFor(items: seq<WrapItem>, members: seq<Member>, options: Options): Plan {
    BuildPlan(HandlesOf(items), TargetHandles(members), CollectStale(items, members), options)
  }
}

/** A plan names each recipient once, and is empty exactly when nothing is left to do. */
module RewrapPlanProofs {
  import opened Wrappers
  import opened Seqs
  import opened Wire
  import opened EnvelopeProofs
  import opened RecipientProofs
  import opened RewrapPlan
  import Ordering

  lemma {:induction false} MinusIs(a: seq<string>, b: seq<string>)
    ensures forall s :: s in Minus(a, b) <==> s in a && s !in b
    ensures NoRepeats(a) ==> NoRepeats(Minus(a, b))
  {
    if a == [] {
    } else {
      var init, last := a[..|a| - 1], a[|a| - 1];
      MinusIs(init, b);
      assert a == init + [last];
      var kept := Minus(init, b);
      forall i | 0 <= i < |kept|
        ensures kept[i] in init
      {
        assert kept[i] in kept;
      }
    }
  }

  lemma {:induction false} FoundItem(items: seq<WrapItem>, handle: string)
    requires DistinctHandles(items)
    ensures FindItem(items, handle).Some? <==> handle in HandlesOf(items)
    ensures FindItem(items, handle).Some? ==>
              FindItem(items, handle).value in items && FindItem(items, handle).value.recipientHandle == handle
  {
    if items != [] {
      FoundItem(items[1..], handle);
      assert items == [items[0]] + items[1..];
      assert HandlesOf(items) == [items[0].recipientHandle] + HandlesOf(items[1..]);
    }
  }

  /** The member has a wrap, and it was made for another key id. */
  ghost predicate IsStale(items: seq<WrapItem>, member: Member) {
    exists a :: a in Addressees(items) && a.handle == member.handle && a.kid != member.kid
  }

  lemma StaleIs(items: seq<WrapItem>, member: Member)
    requires DistinctHandles(items)
    ensures IsStale(items, member)
       <==> FindItem(items, member.handle).Some? && FindItem(items, member.handle).value.kid != member.kid
  {
    FoundItem(items, member.handle);
    var found := FindItem(items, member.handle);
    if found.Some? {
      assert Addressee(member.handle, found.value.kid) in Addressees(items);
    }
    if a :| a in Addressees(items) && a.handle == member.handle && a.kid != member.kid {
      var w :| w in items && a == Addressee(w.recipientHandle, w.kid);
      var i :| 0 <= i < |items| && items[i] == w;
      assert HandlesOf(items)[i] == member.handle;
      var j :| 0 <= j < |items| && items[j] == found.value;
    }
  }

  lemma {:induction false} StaleAre(items: seq<WrapItem>, members: seq<Member>)
    requires DistinctHandles(items) && DistinctMembers(members)
    ensures NoRepeats(CollectStale(items, members))
    ensures forall h :: h in CollectStale(items, members) <==>
                        exists i :: 0 <= i < |members| && members[i].handle == h && IsStale(items, members[i])
  {
    if members == [] {
    } else {
      var init, last := members[..|members| - 1], members[|members| - 1];
      StaleAre(items, init);
      StaleIs(items, last);
      var earlier := CollectStale(items, init);
      forall j | 0 <= j < |earlier|
        ensures earlier[j] != last.handle
      {
        var h := earlier[j];
        assert h in CollectStale(items, init);
        var i :| 0 <= i < |init| && init[i].handle == h;
        assert members[i] == init[i];
      }
      forall h
        ensures h in CollectStale(items, members) <==>
                exists i :: 0 <= i < |members| && members[i].handle == h && IsStale(items, members[i])
      {
        if h in earlier {
          var i :| 0 <= i < |init| && init[i].handle == h && IsStale(items, init[i]);
          assert members[i] == init[i];
        }
        if i :| 0 <= i < |members| && members[i].handle == h && IsStale(items, members[i]) {
          if i < |init| {
            assert init[i] == members[i];
          }
        }
      }
    }
  }

  lemma TargetsAre(members: seq<Member>)
    requires DistinctMembers(members)
    ensures NoRepeats(TargetHandles(members)) && Ordering.StrictlyAscending(Itself(), TargetHandles(members))
    ensures forall h :: h in TargetHandles(members) <==> IsMember(members, h)
  {
    var handles := MemberHandles(members);
    assert forall i :: 0 <= i < |handles| ==> Itself()(handles[i]) == handles[i];
    Ordering.SortedDistinct(Itself(), handles);
    Ordering.SortedIsPermutation(Itself(), handles);
    var sorted := TargetHandles(members);
    assert forall i :: 0 <= i < |sorted| ==> Itself()(sorted[i]) == sorted[i];
    forall h
      ensures h in sorted <==> IsMember(members, h)
    {
      assert h in sorted <==> h in multiset(handles);
      if IsMember(members, h) {
        var i :| 0 <= i < |members| && members[i].handle == h;
        assert handles[i] == h;
      }
    }
  }

  // ---- the order of a plan ----------------------------------------------------------------

  lemma {:induction false} MinusAscends(a: seq<string>, b: seq<string>)
    requires Ordering.StrictlyAscending(Itself(), a)
    ensures Ordering.StrictlyAscending(Itself(), Minus(a, b))
  {
    if a != [] {
      var init, last := a[..|a| - 1], a[|a| - 1];
      assert forall i, j :: 0 <= i < j < |init| ==> init[i] == a[i] && init[j] == a[j];
      assert Ordering.StrictlyAscending(Itself(), init);
      MinusAscends(init, b);
      MinusIs(init, b);
      forall x | x in Minus(init, b)
        ensures Ordering.Less(x, last)
      {
        var i :| 0 <= i < |init| && init[i] == x;
        assert a[i] == x && Ordering.Less(Itself()(a[i]), Itself()(a[|a| - 1]));
      }
    }
  }

  /** Those of the targets to be added stand in strictly ascending order. */
  lemma AdditionsAscend(items: seq<WrapItem>, members: seq<Member>, options: Options)
    requires DistinctMembers(members)
    ensures Ordering.StrictlyAscending(Itself(), PlanFor(items, members, options).add)
  {
    TargetsAre(members);
    MinusAscends(TargetHandles(members), HandlesOf(items));
  }

  /** The plan asks for a rotation and for a cleared history exactly when the options do. */
  lemma PlanFlags(items: seq<WrapItem>, members: seq<Member>, options: Options)
    ensures PlanFor(items, members, options).rotateKey == options.rotateKey
    ensures PlanFor(items, members, options).clearHistory == options.clearHistory
  {
  }

  /** `x` stands before `y`. */
  ghost predicate Precedes(list: seq<string>, x: string, y: string) {
    exists i, j :: 0 <= i < j < |list| && list[i] == x && list[j] == y
  }

  /** Whatever stands before something in `part` stands before it in `list`. */
  ghost predicate KeepsOrder(part: seq<string>, list: seq<string>) {
    (forall i :: 0 <= i < |part| ==> part[i] in list)
    && forall i, j :: 0 <= i < j < |part| ==> Precedes(list, part[i], part[j])
  }

  lemma OrderGrows(part: seq<string>, list: seq<string>, last: string)
    requires KeepsOrder(part, list)
    ensures KeepsOrder(part, list + [last]) && KeepsOrder(part + [last], list + [last])
  {
    var more := list + [last];
    forall i, j | 0 <= i < j < |part|
      ensures Precedes(more, part[i], part[j])
    {
      var p, q :| 0 <= p < q < |list| && list[p] == part[i] && list[q] == part[j];
      assert more[p] == part[i] && more[q] == part[j];
    }
    forall i | 0 <= i < |part|
      ensures Precedes(more, part[i], last)
    {
      assert part[i] in list;
      var p :| 0 <= p < |list| && list[p] == part[i];
      assert more[p] == part[i] && more[|list|] == last;
    }
  }

  lemma {:induction false} MinusInOrder(a: seq<string>, b: seq<string>)
    ensures KeepsOrder(Minus(a, b), a)
  {
    if a != [] {
      MinusInOrder(a[..|a| - 1], b);
      OrderGrows(Minus(a[..|a| - 1], b), a[..|a| - 1], a[|a| - 1]);
      assert a == a[..|a| - 1] + [a[|a| - 1]];
    }
  }

  lemma {:induction false} StaleInOrder(items: seq<WrapItem>, members: seq<Member>)
    ensures KeepsOrder(CollectStale(items, members), MemberHandles(members))
  {
    if members != [] {
      var init, last := members[..|members| - 1], members[|members| - 1];
      StaleInOrder(items, init);
      OrderGrows(CollectStale(items, init), MemberHandles(init), last.handle);
      assert MemberHandles(members) == MemberHandles(init) + [last.handle];
    }
  }

  /** Removals stand in the order of the document, refreshes in that of the members. */
  lemma PlanInOrder(items: seq<WrapItem>, members: seq<Member>, options: Options)
    ensures KeepsOrder(PlanFor(items, members, options).remove, HandlesOf(items))
    ensures KeepsOrder(PlanFor(items, members, options).stale, MemberHandles(members))
  {
    MinusInOrder(HandlesOf(items), TargetHandles(members));
    StaleInOrder(items, members);
  }

  /** What a plan for distinct recipients and distinct targets contains. */
  lemma PlanIs(items: seq<WrapItem>, members: seq<Member>, options: Options)
    requires DistinctHandles(items) && DistinctMembers(members)
    ensures var plan := PlanFor(items, members, options);
            && NoRepeats(plan.remove) && NoRepeats(plan.stale) && NoRepeats(plan.add)
            && (forall h :: h in plan.remove <==> h in HandlesOf(items) && !IsMember(members, h))
            && (forall h :: h in plan.stale <==>
                            exists i :: 0 <= i < |members| && members[i].handle == h && IsStale(items, members[i]))
            && (forall h :: h in plan.add <==> IsMember(members, h) && h !in HandlesOf(items))
  {
    TargetsAre(members);
    StaleAre(items, members);
    MinusIs(HandlesOf(items), TargetHandles(members));
    MinusIs(TargetHandles(members), HandlesOf(items));
  }

  lemma HasHandle(items: seq<WrapItem>, h: string)
    ensures h in HandlesOf(items) <==> exists a :: a in Addressees(items) && a.handle == h
  {
    if h in HandlesOf(items) {
      var i :| 0 <= i < |items| && HandlesOf(items)[i] == h;
      assert items[i] in items;
      assert Addressee(h, items[i].kid) in Addressees(items);
    }
    if a :| a in Addressees(items) && a.handle == h {
      var w :| w in items && a == Addressee(w.recipientHandle, w.kid);
      var i :| 0 <= i < |items| && items[i] == w;
      assert HandlesOf(items)[i] == h;
    }
  }

  lemma HasMember(members: seq<Member>, h: string)
    ensures IsMember(members, h) <==> exists a :: a in AddresseesOf(members) && a.handle == h
  {
    if IsMember(members, h) {
      var i :| 0 <= i < |members| && members[i].handle == h;
      assert members[i] in members;
      assert Addressee(h, members[i].kid) in AddresseesOf(members);
    }
    if a :| a in AddresseesOf(members) && a.handle == h {
      var m :| m in members && a == Addressee(m.handle, m.kid);
      var i :| 0 <= i < |members| && members[i] == m;
      assert members[i].handle == h;
    }
  }

  lemma EmptyOrNot(s: seq<string>)
    ensures s == [] || exists x :: x in s
  {
    if s != [] {
      assert s[0] in s;
    }
  }

  ghost predicate NothingToDo(plan: Plan) {
    plan.remove == [] && plan.stale == [] && plan.add == []
  }

  /** A plan has nothing to do exactly when the wraps are addressed to the targets under their key ids. */
  lemma EmptyPlanExactly(items: seq<WrapItem>, members: seq<Member>, options: Options)
    requires DistinctHandles(items) && DistinctMembers(members)
    ensures NothingToDo(PlanFor(items, members, options)) <==> Addressees(items) == AddresseesOf(members)
  {
    PlanIs(items, members, options);
    var plan := PlanFor(items, members, options);
    if Addressees(items) == AddresseesOf(members) {
      forall h
        ensures h !in plan.remove && h !in plan.add && h !in plan.stale
      {
        HasHandle(items, h);
        HasMember(members, h);
        if i :| 0 <= i < |members| && members[i].handle == h && IsStale(items, members[i]) {
          OneKidEach(members, members[i]);
        }
      }
      EmptyOrNot(plan.remove);
      EmptyOrNot(plan.add);
      EmptyOrNot(plan.stale);
    } else if NothingToDo(plan) {
      forall i | 0 <= i < |members|
        ensures !IsStale(items, members[i])
      {
        assert members[i].handle !in plan.stale;
      }
      NothingToDoMeans(items, members);
    }
  }

  lemma OneKidEach(members: seq<Member>, member: Member)
    requires DistinctMembers(members) && member in members
    ensures forall a :: a in AddresseesOf(members) && a.handle == member.handle ==> a.kid == member.kid
  {
  }

  lemma NothingToDoMeans(items: seq<WrapItem>, members: seq<Member>)
    requires DistinctHandles(items) && DistinctMembers(members)
    requires forall h :: h in HandlesOf(items) <==> IsMember(members, h)
    requires forall i :: 0 <= i < |members| ==> !IsStale(items, members[i])
    ensures Addressees(items) == AddresseesOf(members)
  {
    forall a | a in Addressees(items)
      ensures a in AddresseesOf(members)
    {
      HasHandle(items, a.handle);
      var i :| 0 <= i < |members| && members[i].handle == a.handle;
      assert members[i] in members;
    }
    forall a | a in AddresseesOf(members)
      ensures a in Addressees(items)
    {
      HasMember(members, a.handle);
      HasHandle(items, a.handle);
      var b :| b in Addressees(items) && b.handle == a.handle;
      var m :| m in members && a == Addressee(m.handle, m.kid);
      var i :| 0 <= i < |members| && members[i] == m;
      assert !IsStale(items, members[i]);
    }
  }
}
