/** rankSlotsByPreference: the order in which the race prepares the slots Find returned. */
module SlotRanking {
  import opened Sorting

  datatype WallTime = WallTime(hour: int, minute: int, second: int)

  datatype SlotPreference = SlotPreference(time: WallTime, tableType: string)

  datatype Slot = Slot(time: WallTime, tableType: string, configId: string)

  predicate Matches(s: Slot, p: SlotPreference) {
    p.time == s.time && (p.tableType == "" || p.tableType == s.tableType)
  }

  /** The index of the first preference the slot matches, or their number. */
  function Priority(s: Slot, prefs: seq<SlotPreference>): (i: nat)
    ensures i <= |prefs|
    ensures i < |prefs| ==> prefs[i].time == s.time && prefs[i].tableType in {"", s.tableType}
    ensures forall j | 0 <= j < i :: prefs[j].time != s.time || prefs[j].tableType !in {"", s.tableType}
  {
    if prefs == [] || Matches(s, prefs[0]) then 0 else 1 + Priority(s, prefs[1..])
  }

  function NoLater(prefs: seq<SlotPreference>): (Slot, Slot) -> bool {
    (a: Slot, b: Slot) => Priority(a, prefs) <= Priority(b, prefs)
  }

  function Ranked(slots: seq<Slot>, prefs: seq<SlotPreference>): seq<Slot> {
    Sort(NoLater(prefs), slots)
  }

  /** The slots of one priority, in their order. */
  function WithPriority(slots: seq<Slot>, prefs: seq<SlotPreference>, p: nat): seq<Slot> {
    if slots == [] then []
    else
      var l := slots[|slots| - 1];
      WithPriority(slots[..|slots| - 1], prefs, p) + if Priority(l, prefs) == p then [l] else []
  }

  lemma {:induction false} TiesAreOnePriority(slots: seq<Slot>, prefs: seq<SlotPreference>, x: Slot)
    ensures Ties(NoLater(prefs), slots, x) == WithPriority(slots, prefs, Priority(x, prefs))
  {
    if slots != [] {
      TiesAreOnePriority(slots[..|slots| - 1], prefs, x);
    }
  }

  lemma {:induction false} WithPriorityMember(slots: seq<Slot>, prefs: seq<SlotPreference>, p: nat)
    ensures forall s :: s in WithPriority(slots, prefs, p) <==> s in slots && Priority(s, prefs) == p
  {
    if slots != [] {
      WithPriorityMember(slots[..|slots| - 1], prefs, p);
      assert slots == slots[..|slots| - 1] + [slots[|slots| - 1]];
    }
  }

  /** The race order keeps every slot, tries better matches first, unmatched slots last,
      and keeps Find's order among slots of one priority. */
  lemma RankingCorrect(slots: seq<Slot>, prefs: seq<SlotPreference>)
    ensures multiset(Ranked(slots, prefs)) == multiset(slots)
    ensures forall i, j | 0 <= i < j < |Ranked(slots, prefs)| ::
              Priority(Ranked(slots, prefs)[i], prefs) <= Priority(Ranked(slots, prefs)[j], prefs)
    ensures forall p :: WithPriority(Ranked(slots, prefs), prefs, p) == WithPriority(slots, prefs, p)
  {
    var le, out := NoLater(prefs), Ranked(slots, prefs);
    SortCorrect(le, slots);
    forall i, j | 0 <= i < j < |out| ensures Priority(out[i], prefs) <= Priority(out[j], prefs) {
      assert le(out[i], out[j]);
    }
    forall p ensures WithPriority(out, prefs, p) == WithPriority(slots, prefs, p) {
      WithPriorityMember(slots, prefs, p);
      WithPriorityMember(out, prefs, p);
      assert forall s :: s in out <==> s in multiset(out);
      assert forall s :: s in slots <==> s in multiset(slots);
      if x :| x in slots && Priority(x, prefs) == p {
        TiesAreOnePriority(slots, prefs, x);
        TiesAreOnePriority(out, prefs, x);
        assert Ties(le, out, x) == Ties(le, slots, x);
      } else {
        HeadIsMember(WithPriority(slots, prefs, p));
        HeadIsMember(WithPriority(out, prefs, p));
      }
    }
  }

  lemma RankedLength(slots: seq<Slot>, prefs: seq<SlotPreference>)
    ensures |Ranked(slots, prefs)| == |slots|
  {
    RankingCorrect(slots, prefs);
    assert |multiset(Ranked(slots, prefs))| == |multiset(slots)|;
  }

  lemma HeadIsMember(s: seq<Slot>)
    ensures s == [] || s[0] in s
  {
  }

  /** No other order has these properties. */
  lemma RankingUnique(slots: seq<Slot>, prefs: seq<SlotPreference>, other: seq<Slot>)
    requires forall i, j | 0 <= i < j < |other| :: Priority(other[i], prefs) <= Priority(other[j], prefs)
    requires forall p :: WithPriority(other, prefs, p) == WithPriority(slots, prefs, p)
    ensures other == Ranked(slots, prefs)
  {
    var le := NoLater(prefs);
    SortCorrect(le, slots);
    forall x ensures Ties(le, other, x) == Ties(le, Sort(le, slots), x) {
      TiesAreOnePriority(other, prefs, x);
      TiesAreOnePriority(slots, prefs, x);
      assert Ties(le, Sort(le, slots), x) == Ties(le, slots, x);
    }
    StableOrderUnique(le, other, Sort(le, slots));
  }

  /** Sort a copy; with no preferences the caller's own slice comes back. */
  method RankSlotsByPreference(slots: array<Slot>, prefs: seq<SlotPreference>) returns (out: array<Slot>)
    ensures out[..] == Ranked(slots[..], prefs) && out.Length == slots.Length
    ensures if prefs == [] then out == slots else fresh(out)
  {
    if prefs == [] {
      SortOfSorted(NoLater(prefs), slots[..]);
      return slots;
    }
    out := new Slot[slots.Length](i requires 0 <= i < slots.Length reads slots => slots[i]);
    assert out[..] == slots[..];
    SortCorrect(NoLater(prefs), slots[..]);
    InsertionSort(out, NoLater(prefs));
  }
}
