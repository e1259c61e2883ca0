/** Code-cache coherence: which live blocks can differ from memory, and why
    none is left after the pending events are processed. */
module Coherence {
  import opened Machine
  import opened Blocks
  import opened Cache

  /** Every live block whose stores are caught equals a decode of memory. */
  predicate Coherent(bs: seq<Option<Block>>, m: Memory, all: bool) {
    forall i :: 0 <= i < |bs| && bs[i].Some? && Seen(bs[i].value, m, all) ==>
      Matches(bs[i].value.code, bs[i].value.start, m)
  }

  predicate TouchedBy(b: Block, m: Memory, evs: seq<Event>) {
    exists e :: 0 <= e < |evs| && Touches(b, m, evs[e].addr)
  }

  predicate FreshOrTouched(b: Block, m: Memory, evs: seq<Event>, all: bool) {
    Seen(b, m, all) ==> Matches(b.code, b.start, m) || TouchedBy(b, m, evs)
  }

  /** Every such block equals memory, or a recorded event touched it. */
  predicate StaleOnlyAt(bs: seq<Option<Block>>, m: Memory, evs: seq<Event>, all: bool) {
    forall i :: 0 <= i < |bs| && bs[i].Some? ==> FreshOrTouched(bs[i].value, m, evs, all)
  }

  /** `bs'` is `bs` with some blocks discarded. */
  predicate SubTable(bs': seq<Option<Block>>, bs: seq<Option<Block>>) {
    |bs'| == |bs| && forall i :: 0 <= i < |bs| ==> bs'[i] == bs[i] || bs'[i].None?
  }

  /** An event that carries its physical address unless no block was hit there. */
  predicate EventOk(bs: seq<Option<Block>>, m: Memory, ev: Event) {
    || ev.phys == Some(Phys(m, ev.addr))
    || (ev.phys.None? && forall i :: 0 <= i < |bs| && bs[i].Some? ==> !PhysCounted(bs[i].value, Phys(m, ev.addr)))
  }

  predicate EventsOk(bs: seq<Option<Block>>, m: Memory, evs: seq<Event>) {
    forall e :: 0 <= e < |evs| ==> EventOk(bs, m, evs[e])
  }

  lemma EventAtOk(bs: seq<Option<Block>>, m: Memory, v: word)
    ensures EventOk(bs, m, EventAt(bs, m, v)) && EventAt(bs, m, v).addr == v
  {
    hide PhysHit, PhysCounted;
    PhysHitScan(bs, m, v);
  }

  lemma {:induction false} EventsOkSub(bs': seq<Option<Block>>, bs: seq<Option<Block>>, m: Memory, evs: seq<Event>)
    requires SubTable(bs', bs) && EventsOk(bs, m, evs)
    ensures EventsOk(bs', m, evs)
  {
    hide PhysCounted, Phys;
    forall e | 0 <= e < |evs|
      ensures EventOk(bs', m, evs[e])
    {
      assert EventOk(bs, m, evs[e]);
    }
  }

  // ------------------------------------------------------------- discarding

  lemma WithoutSub(bs: seq<Option<Block>>, sel: Select)
    ensures SubTable(Without(bs, sel), bs)
    ensures forall i :: 0 <= i < |bs| && Without(bs, sel)[i].Some? ==> !Selected(bs[i].value, sel)
  {}

  lemma AfterHitSub(bs: seq<Option<Block>>, ev: Event)
    ensures SubTable(AfterHit(bs, ev), bs)
    ensures forall i :: 0 <= i < |bs| && AfterHit(bs, ev)[i].Some? ==>
              && !Selected(bs[i].value, ByAddr(ev.addr))
              && (ev.phys.Some? ==> !Selected(bs[i].value, ByPhys(ev.phys.value)))
  {
    hide Without, Selected;
    WithoutSub(bs, ByAddr(ev.addr));
    if ev.phys.Some? {
      WithoutSub(Without(bs, ByAddr(ev.addr)), ByPhys(ev.phys.value));
    }
  }

  lemma ProcessSub(s: Policy, ev: Event)
    requires |s.pageEvents| == 256 && |s.mutablePages| == 256
    ensures SubTable(Process(s, ev).blocks, s.blocks)
    ensures SubTable(Process(s, ev).blocks, AfterHit(s.blocks, ev))
  {
    hide Without, AfterHit;
    AfterHitSub(s.blocks, ev);
    WithoutSub(AfterHit(s.blocks, ev), ByPage(ev.addr / 256));
  }

  /** A block that survives an event was not touched by its store, under every
      page map, unless its physical span ends at $FFFF and page $FF is aliased. */
  lemma SurvivorUntouched(bs: seq<Option<Block>>, m: Memory, ev: Event, i: nat, all: bool)
    requires TableOk(bs) && TagsOk(bs, m) && EventOk(bs, m, ev) && (all ==> TopPageUnaliased(m))
    requires i < |bs| && AfterHit(bs, ev)[i].Some?
    ensures bs[i].Some? && (Seen(bs[i].value, m, all) ==> !Touches(bs[i].value, m, ev.addr))
  {
    hide AfterHit, Touches, WellBuilt, Phys, TopPageUnaliased, PhysMatch, PhysCounted, Contains, SpanLen, Len;
    AfterHitSub(bs, ev);
    var b := bs[i].value;
    assert BlockOk(b, i) && TagOk(b, m);
    if Seen(b, m, all) && Touches(b, m, ev.addr) {
      SeenDiscards(b, m, ev.addr, all);
      assert PhysMatch(b, Phys(m, ev.addr));
      MatchedIsCounted(b, m, ev.addr);
      assert false;
    }
  }

  lemma MatchedIsCounted(b: Block, m: Memory, v: word)
    requires WellBuilt(b) && TagOk(b, m) && PhysMatch(b, Phys(m, v))
    ensures PhysCounted(b, Phys(m, v))
  {
    hide WellBuilt, Len, Phys, SpanLen;
    if m.paged {
      PhysMatchExact(b, m, v);
    }
  }

  // ------------------------------------------------------- processing events

  lemma SubTableOk(bs': seq<Option<Block>>, bs: seq<Option<Block>>, m: Memory)
    requires SubTable(bs', bs) && TableOk(bs) && TagsOk(bs, m)
    ensures TableOk(bs') && TagsOk(bs', m)
  {
    hide BlockOk, TagOk;
  }

  /** One event: what is stale afterwards was touched by a later event. */
  lemma ProcessOneSettles(s: Policy, m: Memory, evs: seq<Event>, all: bool)
    requires |s.pageEvents| == 256 && |s.mutablePages| == 256 && evs != []
    requires TableOk(s.blocks) && TagsOk(s.blocks, m) && (all ==> TopPageUnaliased(m))
    requires StaleOnlyAt(s.blocks, m, evs, all) && EventOk(s.blocks, m, evs[0])
    ensures StaleOnlyAt(Process(s, evs[0]).blocks, m, evs[1..], all)
  {
    hide Process, AfterHit, Touches, TopPageUnaliased, EventOk, TableOk, TagsOk, Matches, Seen;
    ProcessSub(s, evs[0]);
    var bs' := Process(s, evs[0]).blocks;
    forall i | 0 <= i < |bs'| && bs'[i].Some?
      ensures FreshOrTouched(bs'[i].value, m, evs[1..], all)
    {
      var b := s.blocks[i].value;
      SurvivorUntouched(s.blocks, m, evs[0], i, all);
      assert FreshOrTouched(b, m, evs, all);
      if Seen(b, m, all) && !Matches(b.code, b.start, m) {
        var e :| 0 <= e < |evs| && Touches(b, m, evs[e].addr);
        assert evs[1..][e - 1] == evs[e];
      }
    }
  }

  /** Once all recorded events are processed, every live block whose physical
      span ends below $FFFF equals memory, under every page map; so does every
      other while page $FF has one virtual page. */
  lemma {:induction false} ProcessAllSettles(s: Policy, m: Memory, evs: seq<Event>, all: bool)
    requires |s.pageEvents| == 256 && |s.mutablePages| == 256
    requires TableOk(s.blocks) && TagsOk(s.blocks, m) && (all ==> TopPageUnaliased(m))
    requires StaleOnlyAt(s.blocks, m, evs, all) && EventsOk(s.blocks, m, evs)
    ensures var bs' := ProcessAll(s, evs).blocks;
            Coherent(bs', m, all) && SubTable(bs', s.blocks) && TagsOk(bs', m)
    decreases |evs|
  {
    hide TableOk, TagsOk, TopPageUnaliased, Process, Matches, Touches, Seen;
    if evs != [] {
      var s1 := Process(s, evs[0]);
      assert |s1.pageEvents| == 256 && |s1.mutablePages| == 256 by { ProcessLengths(s, evs[0]); }
      assert EventOk(s.blocks, m, evs[0]);
      ProcessOneSettles(s, m, evs, all);
      ProcessSub(s, evs[0]);
      SubTableOk(s1.blocks, s.blocks, m);
      assert EventsOk(s.blocks, m, evs[1..]) by {
        assert forall e :: 0 <= e < |evs[1..]| ==> evs[1..][e] == evs[e + 1];
      }
      EventsOkSub(s1.blocks, s.blocks, m, evs[1..]);
      ProcessAllSettles(s1, m, evs[1..], all);
    } else {
      forall i | 0 <= i < |s.blocks| && s.blocks[i].Some? && Seen(s.blocks[i].value, m, all)
        ensures Matches(s.blocks[i].value.code, s.blocks[i].value.start, m)
      {
        assert FreshOrTouched(s.blocks[i].value, m, evs, all);
      }
    }
  }

  lemma {:induction false} ProcessAllSub(s: Policy, evs: seq<Event>)
    requires |s.pageEvents| == 256 && |s.mutablePages| == 256
    ensures SubTable(ProcessAll(s, evs).blocks, s.blocks)
    decreases |evs|
  {
    hide Process;
    if evs != [] {
      ProcessLengths(s, evs[0]);
      ProcessSub(s, evs[0]);
      ProcessAllSub(Process(s, evs[0]), evs[1..]);
    }
  }

  lemma ProcessLengths(s: Policy, ev: Event)
    requires |s.pageEvents| == 256 && |s.mutablePages| == 256
    ensures |Process(s, ev).pageEvents| == 256 && |Process(s, ev).mutablePages| == 256
  {}

  // ----------------------------------------------------------------- storing

  /** Stores leave a block equal to memory unless a recorded event touched it. */
  lemma StoresLeaveStaleOnlyAt(bs: seq<Option<Block>>, m: Memory, ws: seq<Write>, evs: seq<Event>, all: bool)
    requires TableOk(bs) && StaleOnlyAt(bs, m, evs, all)
    requires forall j :: 0 <= j < |ws| && Tracked(bs, m, ws[j].addr) ==> Recorded(evs, ws[j].addr)
    ensures StaleOnlyAt(bs, StoreAll(m, ws), evs, all)
  {
    hide Matches, Touches, StoreAll, Seen;
    forall i | 0 <= i < |bs| && bs[i].Some?
      ensures FreshOrTouched(bs[i].value, StoreAll(m, ws), evs, all)
    {
      var b := bs[i].value;
      assert BlockOk(b, i) && FreshOrTouched(b, m, evs, all);
      StoreAllLayout(m, ws);
      TouchedSameLayout(b, m, StoreAll(m, ws), evs);
      SeenSameLayout(b, m, StoreAll(m, ws), all);
      if Seen(b, m, all) && !TouchedBy(b, m, evs) {
        forall j | 0 <= j < |ws|
          ensures !Touches(b, m, ws[j].addr)
        {
          if Touches(b, m, ws[j].addr) {
            RecordedTouches(bs, i, m, evs, ws[j].addr);
            assert false;
          }
        }
        UntouchedMatches(b, m, ws);
      }
    }
  }

  lemma RecordedTouches(bs: seq<Option<Block>>, i: nat, m: Memory, evs: seq<Event>, v: word)
    requires i < |bs| && bs[i].Some? && Touches(bs[i].value, m, v)
    requires Tracked(bs, m, v) ==> Recorded(evs, v)
    ensures TouchedBy(bs[i].value, m, evs)
  {
    hide Touches;
    var e :| 0 <= e < |evs| && evs[e].addr == v;
    assert Touches(bs[i].value, m, evs[e].addr);
  }

  predicate Recorded(evs: seq<Event>, v: word) {
    exists e :: 0 <= e < |evs| && evs[e].addr == v
  }

  lemma SeenSameLayout(b: Block, m: Memory, m': Memory, all: bool)
    requires SameLayout(m, m')
    ensures Seen(b, m', all) == Seen(b, m, all)
  {
    hide Len;
  }

  lemma TouchedSameLayout(b: Block, m: Memory, m': Memory, evs: seq<Event>)
    requires SameLayout(m, m')
    ensures TouchedBy(b, m', evs) == TouchedBy(b, m, evs)
  {
    hide Len;
    forall v: word
      ensures Touches(b, m', v) == Touches(b, m, v)
    {}
  }
}
