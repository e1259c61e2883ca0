/** The host-defined MMU: translation with its software TLB, and the update
    protocol that keeps the TLB and the code cache coherent. */
module Mmu {
  import opened Machine
  import opened Blocks
  import opened Cache

  const PHYS_MAX := 0x100_0000
  const PERM_FAULT: word := 0xFFFE
  const NO_CALLBACK: word := 0xFFFD
  const RANGE_FAULT: word := 0xFFFF

  datatype Access = FetchAccess | ReadAccess | WriteAccess

  /** What the host's translation callback returns. */
  datatype Result = Result(ok: bool, paddr: nat, perms: nat, faultCode: word, noFill: bool)

  /** A host mapping state: the callback as a pure function. */
  type Callback = (word, Access) -> Result

  datatype Outcome = Translated(paddr: nat) | Fault(code: word)

  /** `(perms & req_perm) == req_perm` for the permission the access needs. */
  predicate Permits(perms: nat, acc: Access) {
    match acc
    case ReadAccess => perms % 2 == 1
    case WriteAccess => perms / 2 % 2 == 1
    case FetchAccess => perms / 4 % 2 == 1
  }

  /** Translation without a TLB. */
  function Direct(cb: Option<Callback>, v: word, acc: Access): Outcome {
    match cb
    case None => Fault(NO_CALLBACK)
    case Some(f) =>
      var r := f(v, acc);
      if !r.ok then Fault(r.faultCode)
      else if !Permits(r.perms, acc) then Fault(PERM_FAULT)
      else if r.paddr >= PHYS_MAX then Fault(RANGE_FAULT)
      else Translated(r.paddr)
  }

  datatype Entry = Entry(valid: bool, vpage: byte, base: nat, perms: nat, epoch: nat)

  const BLANK := Entry(false, 0, 0, 0, 0)

  /** What a TLB hit answers. */
  function HitOutcome(e: Entry, v: word, acc: Access): Outcome {
    if !Permits(e.perms, acc) then Fault(PERM_FAULT) else Translated(e.base + v % 256)
  }

  /** Whether a successful translation is cached. */
  predicate Cacheable(r: Result, v: word) {
    !r.noFill && r.paddr % 256 == v % 256
  }

  function Filled(r: Result, v: word, epoch: nat): Entry {
    Entry(true, v / 256, r.paddr - r.paddr % 256, r.perms, epoch)
  }

  /** rk65c02_mmu_translate_addr on the entry of the page: the outcome and the
      entry left behind. */
  function Lookup(e: Entry, on: bool, epoch: nat, cb: Option<Callback>, v: word, acc: Access): (Outcome, Entry) {
    if on && e.valid && e.vpage == v / 256 && e.epoch == epoch then (HitOutcome(e, v, acc), e)
    else
      var o := Direct(cb, v, acc);
      if o.Translated? && cb.Some? && on && Cacheable(cb.value(v, acc), v)
      then (o, Filled(cb.value(v, acc), v, epoch)) else (o, e)
  }

  /** An entry answers every access to its page as the callback would. */
  ghost predicate Agrees(e: Entry, p: byte, cb: Option<Callback>) {
    forall v: word, acc :: v / 256 == p ==> HitOutcome(e, v, acc) == Direct(cb, v, acc)
  }

  /** Whatever the callback lets the TLB keep is right for the whole page and
      every kind of access. */
  ghost predicate FillsAgree(cb: Callback, p: byte) {
    forall v: word, acc :: v / 256 == p && Fills(cb, v, acc) ==> Agrees(Filled(cb(v, acc), v, 0), p, Some(cb))
  }

  /** The access leaves a TLB entry behind. */
  predicate Fills(cb: Callback, v: word, acc: Access) {
    Direct(Some(cb), v, acc).Translated? && Cacheable(cb(v, acc), v)
  }

  // ------------------------------------------------------------ permissions

  /** The permission bits for a set of rights: R is 1, W is 2, X is 4. */
  function PermBits(rights: set<Access>): nat {
    Weight(ReadAccess in rights, 1) + Weight(WriteAccess in rights, 2) + Weight(FetchAccess in rights, 4)
  }

  /** The outcome is `granted` for an access that has the right, and the
      permission fault otherwise; bits above X do not matter. */
  ghost predicate Honours(perms: nat, acc: Access, o: Outcome, granted: Outcome) {
    forall rights: set<Access> :: perms % 8 == PermBits(rights) ==> o == if acc in rights then granted else Fault(0xFFFE)
  }

  lemma PermitsByBits(perms: nat, acc: Access, rights: set<Access>)
    requires perms % 8 == PermBits(rights)
    ensures Permits(perms, acc) <==> acc in rights
  {
    PermDigits(perms, Weight(ReadAccess in rights, 1), Weight(WriteAccess in rights, 1), Weight(FetchAccess in rights, 1));
  }

  lemma PermDigits(perms: nat, r: nat, w: nat, x: nat)
    requires r < 2 && w < 2 && x < 2 && perms % 8 == r + 2 * w + 4 * x
    ensures perms % 2 == r && perms / 2 % 2 == w && perms / 4 % 2 == x
  {
    var h := perms / 8;
    assert perms == 8 * h + 4 * x + 2 * w + r;
    assert perms / 2 == 4 * h + 2 * x + w;
    assert perms / 4 == 2 * h + x;
  }

  predicate Hits(e: Entry, on: bool, epoch: nat, v: word) {
    on && e.valid && e.vpage == v / 256 && e.epoch == epoch
  }

  /** Every access is answered by the permission bits: those of the entry on a
      hit, those of the callback on a miss. */
  ghost predicate Answered(e: Entry, on: bool, epoch: nat, cb: Option<Callback>, v: word, acc: Access, o: Outcome) {
    if Hits(e, on, epoch, v) then Honours(e.perms, acc, o, Translated(e.base + v % 256))
    else match cb
      case None => o == Fault(0xFFFD)
      case Some(f) =>
        var r := f(v, acc);
        if !r.ok then o == Fault(r.faultCode)
        else Honours(r.perms, acc, o, if r.paddr < 0x100_0000 then Translated(r.paddr) else Fault(0xFFFF))
  }

  lemma LookupAnswers(e: Entry, on: bool, epoch: nat, cb: Option<Callback>, v: word, acc: Access)
    ensures Answered(e, on, epoch, cb, v, acc, Lookup(e, on, epoch, cb, v, acc).0)
  {
    hide Permits, PermBits;
    forall perms: nat, rights: set<Access> | perms % 8 == PermBits(rights)
      ensures Permits(perms, acc) <==> acc in rights
    {
      PermitsByBits(perms, acc, rights);
    }
  }

  // ------------------------------------------------------------- uniformity

  /** The callback allows the access and maps it to `pa`. */
  predicate Grants(r: Result, acc: Access, pa: nat) {
    r.ok && Permits(r.perms, acc) && r.paddr == pa < PHYS_MAX
  }

  /** The callback refuses the access with the code of the TLB: by permissions,
      or by an error that happens to be $FFFE. */
  predicate Refuses(r: Result, acc: Access) {
    if r.ok then !Permits(r.perms, acc) else r.faultCode == PERM_FAULT
  }

  predicate HasRights(perms: nat, rights: set<Access>) {
    forall acc :: Permits(perms, acc) <==> acc in rights
  }

  /** A base and a set of rights describe all the callback says about the page:
      what has the right is granted at base plus offset, what has not is refused,
      and an answer that may be cached carries the rights in its permissions. */
  ghost predicate Describes(cb: Callback, p: byte, base: nat, rights: set<Access>) {
    && base % 256 == 0
    && forall v: word, acc :: v / 256 == p ==>
         if acc in rights
         then Grants(cb(v, acc), acc, base + v % 256) && (cb(v, acc).noFill || HasRights(cb(v, acc).perms, rights))
         else Refuses(cb(v, acc), acc)
  }

  /** The page has one description, or nothing on it is ever cached. */
  ghost predicate PageUniform(cb: Callback, p: byte) {
    || (forall v: word, acc :: v / 256 == p ==> !Fills(cb, v, acc))
    || exists base: nat, rights: set<Access> :: Describes(cb, p, base, rights)
  }

  ghost predicate Uniform(cb: Callback) {
    forall p: byte :: PageUniform(cb, p)
  }

  lemma DescribedAnswer(cb: Callback, p: byte, base: nat, rights: set<Access>, v: word, acc: Access)
    requires Describes(cb, p, base, rights) && v / 256 == p
    ensures Direct(Some(cb), v, acc) == if acc in rights then Translated(base + v % 256) else Fault(PERM_FAULT)
    ensures Fills(cb, v, acc) ==> acc in rights && HasRights(cb(v, acc).perms, rights) && cb(v, acc).paddr - v % 256 == base
  {
    hide Permits, HasRights;
  }

  lemma DescribedFillsAgree(cb: Callback, p: byte, base: nat, rights: set<Access>)
    requires Describes(cb, p, base, rights)
    ensures FillsAgree(cb, p)
  {
    hide Direct, Describes, Fills, Permits;
    forall v: word, acc | v / 256 == p && Fills(cb, v, acc)
      ensures Agrees(Filled(cb(v, acc), v, 0), p, Some(cb))
    {
      DescribedAnswer(cb, p, base, rights, v, acc);
      FilledBase(cb, v, acc);
      forall w: word, a | w / 256 == p
        ensures HitOutcome(Filled(cb(v, acc), v, 0), w, a) == Direct(Some(cb), w, a)
      {
        DescribedAnswer(cb, p, base, rights, w, a);
      }
    }
  }

  lemma FilledBase(cb: Callback, v: word, acc: Access)
    requires Fills(cb, v, acc)
    ensures Filled(cb(v, acc), v, 0).base == cb(v, acc).paddr - v % 256 && Filled(cb(v, acc), v, 0).base % 256 == 0
    ensures cb(v, acc).ok && Permits(cb(v, acc).perms, acc)
  {
    hide Permits;
  }

  function RightsOf(perms: nat): (rights: set<Access>)
    ensures HasRights(perms, rights)
  {
    set acc | Permits(perms, acc)
  }

  /** What an entry that agrees with the callback says about its results. */
  lemma AgreeingAnswer(cb: Callback, p: byte, e: Entry, v: word, acc: Access)
    requires Agrees(e, p, Some(cb)) && v / 256 == p
    ensures if Permits(e.perms, acc) then Grants(cb(v, acc), acc, e.base + v % 256) else Refuses(cb(v, acc), acc)
  {
    hide Permits;
    assert HitOutcome(e, v, acc) == Direct(Some(cb), v, acc);
  }

  lemma FillsAgreeDescribed(cb: Callback, p: byte, v0: word, acc0: Access)
    requires FillsAgree(cb, p) && v0 / 256 == p && Fills(cb, v0, acc0)
    ensures var e := Filled(cb(v0, acc0), v0, 0); Describes(cb, p, e.base, RightsOf(e.perms))
  {
    hide Permits, Direct, Agrees, RightsOf, Grants, Refuses;
    var e := Filled(cb(v0, acc0), v0, 0);
    FilledBase(cb, v0, acc0);
    forall v: word, acc | v / 256 == p
      ensures if acc in RightsOf(e.perms)
              then && Grants(cb(v, acc), acc, e.base + v % 256)
                   && (cb(v, acc).noFill || HasRights(cb(v, acc).perms, RightsOf(e.perms)))
              else Refuses(cb(v, acc), acc)
    {
      AgreeingAnswer(cb, p, e, v, acc);
      if acc in RightsOf(e.perms) && !cb(v, acc).noFill {
        GrantedFills(cb, v, acc, e.base);
        SamePermissions(cb, p, e, Filled(cb(v, acc), v, 0));
      }
    }
  }

  lemma GrantedFills(cb: Callback, v: word, acc: Access, base: nat)
    requires Grants(cb(v, acc), acc, base + v % 256) && base % 256 == 0 && !cb(v, acc).noFill
    ensures Fills(cb, v, acc)
  {
    hide Permits;
  }

  lemma SamePermissions(cb: Callback, p: byte, e: Entry, e': Entry)
    requires Agrees(e, p, Some(cb)) && Agrees(e', p, Some(cb))
    ensures forall acc :: Permits(e.perms, acc) <==> Permits(e'.perms, acc)
  {
    hide Permits, Direct;
    forall acc: Access
      ensures Permits(e.perms, acc) <==> Permits(e'.perms, acc)
    {
      assert HitOutcome(e, 256 * p, acc) == HitOutcome(e', 256 * p, acc);
    }
  }

  lemma UniformIffFillsAgree(cb: Callback, p: byte)
    ensures PageUniform(cb, p) <==> FillsAgree(cb, p)
  {
    hide Describes, Fills, Agrees;
    if base: nat, rights: set<Access> :| Describes(cb, p, base, rights) {
      DescribedFillsAgree(cb, p, base, rights);
    }
    if FillsAgree(cb, p) {
      if v: word, acc :| v / 256 == p && Fills(cb, v, acc) {
        FillsAgreeDescribed(cb, p, v, acc);
      }
    }
  }

  /** Second of two accesses to a page, with the TLB empty before the first. */
  function Second(cb: Callback, v: word, acc: Access, v': word, acc': Access): Outcome {
    Lookup(Lookup(BLANK, true, 0, Some(cb), v, acc).1, true, 0, Some(cb), v', acc').0
  }

  /** The TLB is invisible on a page exactly when the page has one description
      by base and rights, or is never cached. */
  lemma UniformIffTransparent(cb: Callback, p: byte)
    ensures PageUniform(cb, p) <==>
              forall v: word, acc, v': word, acc' :: v / 256 == p && v' / 256 == p ==>
                Second(cb, v, acc, v', acc') == Direct(Some(cb), v', acc')
  {
    hide Direct, HitOutcome, Cacheable, PageUniform;
    UniformIffFillsAgree(cb, p);
    if PageUniform(cb, p) {
      forall v: word, acc, v': word, acc' | v / 256 == p && v' / 256 == p
        ensures Second(cb, v, acc, v', acc') == Direct(Some(cb), v', acc')
      {
        if Fills(cb, v, acc) {
          assert Agrees(Filled(cb(v, acc), v, 0), p, Some(cb));
        }
      }
    } else {
      var v: word, acc :| v / 256 == p && Fills(cb, v, acc) && !Agrees(Filled(cb(v, acc), v, 0), p, Some(cb));
      var v': word, acc' :| v' / 256 == p
                            && HitOutcome(Filled(cb(v, acc), v, 0), v', acc') != Direct(Some(cb), v', acc');
      assert Second(cb, v, acc, v', acc') != Direct(Some(cb), v', acc');
    }
  }

  /** The host answers every access to the page alike: the same success or
      failure, the same permissions, one aligned base plus the offset. */
  ghost predicate SamePage(cb: Callback, p: byte, ok: bool, perms: nat, base: nat) {
    && base % 256 == 0
    && forall v: word, acc :: v / 256 == p ==>
         cb(v, acc).ok == ok && (ok ==> cb(v, acc).perms == perms && cb(v, acc).paddr == base + v % 256)
  }

  /** Such a page is uniform whatever its permissions: mapped, read-only,
      unmapped or out of range. */
  lemma SamePageUniform(cb: Callback, p: byte, ok: bool, perms: nat, base: nat)
    requires SamePage(cb, p, ok, perms, base)
    ensures PageUniform(cb, p)
  {
    hide Permits;
    if ok && base < PHYS_MAX {
      assert Describes(cb, p, base, RightsOf(perms));
    }
  }

  /** A host that refuses writes to a page with its own fault code. */
  function DemandWrite(code: word): Callback {
    (v: word, acc: Access) => if acc == WriteAccess then Result(false, 0, 0, code, false) else Result(true, v, 5, 0, false)
  }

  /** Its code is lost once a read was cached: the write then faults with $FFFE. */
  lemma FaultCodeLost(code: word, v: word, w: word)
    requires v / 256 == w / 256
    ensures Second(DemandWrite(code), v, ReadAccess, w, WriteAccess) == Fault(PERM_FAULT)
    ensures Direct(Some(DemandWrite(code)), w, WriteAccess) == Fault(code)
    ensures PageUniform(DemandWrite(code), v / 256) ==> code == PERM_FAULT
  {
    if PageUniform(DemandWrite(code), v / 256) {
      UniformIffTransparent(DemandWrite(code), v / 256);
    }
  }

  // --------------------------------------------------------------- page maps

  /** The host callback for a page map: every page readable, writable, executable. */
  function PageCallback(pages: seq<byte>): Callback
    requires |pages| == 256
  {
    (v: word, acc: Access) => Result(true, 256 * pages[v / 256] + v % 256, 7, 0, false)
  }

  lemma PageCallbackUniform(pages: seq<byte>)
    requires |pages| == 256
    ensures Uniform(PageCallback(pages))
    ensures forall v: word, acc :: Direct(Some(PageCallback(pages)), v, acc) == Translated(256 * pages[v / 256] + v % 256)
  {
    forall p: byte
      ensures PageUniform(PageCallback(pages), p)
    {
      var page: int := pages[p];
      SamePageUniform(PageCallback(pages), p, true, 7, 256 * page);
    }
  }

  /** Every page the host maps differently is marked. */
  predicate MarksChanges(pages: seq<byte>, pages': seq<byte>, ks: seq<Mark>) {
    |pages| == 256 == |pages'| && forall p: byte :: !Marked(ks, p) ==> pages'[p] == pages[p]
  }

  lemma SamePages(pages: seq<byte>, pages': seq<byte>, p: byte)
    requires |pages| == 256 == |pages'| && pages'[p] == pages[p]
    ensures SameOnPage(PageCallback(pages), PageCallback(pages'), p)
  {}

  // -------------------------------------------------------- update protocol

  /** A page or range the host reports as remapped. */
  datatype Mark = MarkPage(p: byte) | MarkRange(start: word, end: word)

  /** The pages a mark covers; a range that wraps covers all of them. */
  predicate Marks(k: Mark, p: byte) {
    match k
    case MarkPage(q) => p == q
    case MarkRange(s, e) => s > e || s / 256 <= p <= e / 256
  }

  predicate Marked(ks: seq<Mark>, p: byte) {
    exists k :: 0 <= k < |ks| && Marks(ks[k], p)
  }

  /** The address is one the host reported. */
  predicate Within(k: Mark, v: word) {
    match k
    case MarkPage(p) => 256 * p <= v < 256 * p + 256
    case MarkRange(s, e) => s > e || s <= v <= e
  }

  predicate Reported(ks: seq<Mark>, v: word) {
    exists k :: 0 <= k < |ks| && Within(ks[k], v)
  }

  /** The page holds a reported address. */
  predicate HoldsReported(ks: seq<Mark>, p: byte) {
    exists v: word :: v / 256 == p && Reported(ks, v)
  }

  /** A mark covers the pages that hold one of its addresses. */
  lemma MarksIff(k: Mark, p: byte)
    ensures Marks(k, p) <==> exists v: word :: v / 256 == p && Within(k, v)
  {
    if Marks(k, p) {
      var v: word := if k.MarkRange? && k.start <= k.end && k.start > 256 * p then k.start else 256 * p;
      assert v / 256 == p && Within(k, v);
    }
  }

  lemma MarkedIff(ks: seq<Mark>, p: byte)
    ensures Marked(ks, p) <==> HoldsReported(ks, p)
  {
    hide Marks, Within;
    if Marked(ks, p) {
      var k :| 0 <= k < |ks| && Marks(ks[k], p);
      MarksIff(ks[k], p);
      var v: word :| v / 256 == p && Within(ks[k], v);
      assert Reported(ks, v);
    }
    if v: word :| v / 256 == p && Reported(ks, v) {
      var k :| 0 <= k < |ks| && Within(ks[k], v);
      MarksIff(ks[k], p);
    }
  }

  /** Two mapping states answer alike on a page. */
  ghost predicate SameOnPage(f: Callback, g: Callback, p: byte) {
    forall v: word, acc :: v / 256 == p ==> f(v, acc) == g(v, acc)
  }

  /** The table after the blocks with code on the given pages are gone. */
  predicate CodeGone(after: seq<Option<Block>>, before: seq<Option<Block>>, gone: seq<bool>, n: nat)
    requires n <= |gone| == 256
  {
    && |after| == |before|
    && forall i :: 0 <= i < |before| ==>
         after[i] == if before[i].Some? && before[i].value.start / 256 < n && gone[before[i].value.start / 256]
                     then None else before[i]
  }

  /** What can happen between guest instructions, and the accesses they make. */
  datatype Action =
    | DoAccess(v: word, acc: Access) | DoTlb(on: bool) | DoFlush | DoFlushPage(p: byte)
    | DoRemap(cb: Callback, ks: seq<Mark>)

  /** What a machine without a TLB answers to the accesses of a history. */
  function Answers(cb: Callback, acts: seq<Action>): seq<Outcome>
    decreases |acts|
  {
    if acts == [] then []
    else match acts[0]
      case DoAccess(v, acc) => [Direct(Some(cb), v, acc)] + Answers(cb, acts[1..])
      case DoRemap(f, _) => Answers(f, acts[1..])
      case _ => Answers(cb, acts[1..])
  }

  /** Every mapping state is uniform, and every remap marks the pages it changes. */
  ghost predicate Honest(cb: Callback, acts: seq<Action>)
    decreases |acts|
  {
    && Uniform(cb)
    && (acts != [] ==>
          if acts[0].DoRemap?
          then (forall p: byte :: !Marked(acts[0].ks, p) ==> SameOnPage(cb, acts[0].cb, p)) && Honest(acts[0].cb, acts[1..])
          else Honest(cb, acts[1..]))
  }

  class Mmu {
    const tlb: array<Entry>
    const changed: array<bool>
    var translate: Option<Callback>
    var enabled: bool
    var tlbOn: bool
    var updatePending: bool
    var changedAll: bool
    var epoch: nat
    /** Pages whose mapping the host has changed since their TLB entry was last
        dropped. */
    ghost var dirty: set<byte>

    constructor ()
      ensures Valid() && fresh(tlb) && fresh(changed) && !enabled && dirty == {}
    {
      tlb := new Entry[256];
      changed := new bool[256];
      translate, enabled, tlbOn, updatePending, changedAll, epoch := None, false, true, false, false, 0;
      dirty := {};
      new;
      forall p | 0 <= p < 256 { tlb[p] := BLANK; }
      forall p | 0 <= p < 256 { changed[p] := false; }
    }

    /** Every valid entry belongs to its page, carries the current epoch, and
        answers as the callback does unless the page is dirty. */
    ghost predicate Valid()
      reads this, tlb
    {
      && tlb.Length == 256 && changed.Length == 256
      && forall p: byte :: tlb[p].valid ==>
           tlb[p].vpage == p && tlb[p].epoch == epoch && (p !in dirty ==> Agrees(tlb[p], p, translate))
    }

    /** rk65c02_mmu_translate_addr. */
    method TranslateAddr(v: word, acc: Access) returns (o: Outcome)
      requires Valid() && (translate.Some? ==> PageUniform(translate.value, v / 256))
      modifies tlb
      ensures Valid()
      ensures v / 256 !in dirty || !tlbOn ==> o == Direct(translate, v, acc)
      ensures (o, tlb[v / 256]) == Lookup(old(tlb[v / 256]), tlbOn, epoch, translate, v, acc)
      ensures Answered(old(tlb[v / 256]), tlbOn, epoch, translate, v, acc, o)
      ensures forall p: byte :: p != v / 256 ==> tlb[p] == old(tlb[p])
    {
      hide Agrees, Permits, PageUniform, Answered;
      var vpage := v / 256;
      var te := tlb[vpage];
      LookupAnswers(te, tlbOn, epoch, translate, v, acc);
      if tlbOn && te.valid && te.vpage == vpage && te.epoch == epoch {
        if vpage !in dirty {
          AgreesAt(te, vpage, translate, v, acc);
        }
        if !Permits(te.perms, acc) {
          return Fault(PERM_FAULT);
        }
        return Translated(te.base + v % 256);
      }
      if translate.None? {
        return Fault(NO_CALLBACK);
      }
      var r := translate.value(v, acc);
      if !r.ok {
        return Fault(r.faultCode);
      }
      if !Permits(r.perms, acc) {
        return Fault(PERM_FAULT);
      }
      if r.paddr >= PHYS_MAX {
        return Fault(RANGE_FAULT);
      }
      if tlbOn && !r.noFill && r.paddr % 256 == v % 256 {
        FillAgrees(translate.value, v, acc, epoch);
        tlb[vpage] := Entry(true, vpage, r.paddr - r.paddr % 256, r.perms, epoch);
      }
      o := Translated(r.paddr);
    }

    /** rk65c02_mmu_tlb_flush. */
    method FlushTlb()
      requires Valid()
      modifies tlb
      ensures Valid() && forall p: byte :: !tlb[p].valid
    {
      forall p | 0 <= p < 256 { tlb[p] := BLANK; }
    }

    /** rk65c02_mmu_tlb_flush_vpage. */
    method FlushPage(p: byte)
      requires Valid()
      modifies tlb
      ensures Valid() && !tlb[p].valid && forall q: byte :: q != p ==> tlb[q] == old(tlb[q])
    {
      tlb[p] := tlb[p].(valid := false);
    }

    /** rk65c02_mmu_tlb_set. */
    method SetTlb(on: bool)
      requires Valid()
      modifies this`tlbOn, tlb
      ensures Valid() && tlbOn == on && (!on ==> forall p: byte :: !tlb[p].valid)
      ensures on ==> forall p: byte :: tlb[p] == old(tlb[p])
    {
      tlbOn := on;
      if !on {
        FlushTlb();
      }
    }

    /** The host changes its mapping state on the given pages. */
    method HostChanges(cb: Callback, ghost pages: set<byte>)
      requires Valid() && translate.Some? && forall p: byte :: p !in pages ==> SameOnPage(translate.value, cb, p)
      modifies this`translate, this`dirty
      ensures Valid() && translate == Some(cb) && dirty == old(dirty) + pages
    {
      ghost var f := translate;
      translate := Some(cb);
      dirty := dirty + pages;
      forall p: byte | tlb[p].valid && p !in dirty
        ensures Agrees(tlb[p], p, translate)
      {
        assert SameOnPage(f.value, cb, p);
        AgreesMoves(tlb[p], p, f.value, cb);
      }
    }

    /** rk65c02_mmu_set without the identity fast path: a new callback, an empty
        TLB and an empty code cache (or a requested flush in a running block). */
    method Configure(cb: Option<Callback>, on: bool, jit: CodeCache, inRun: bool) returns (ok: bool)
      requires Valid() && jit.Valid() && changed != jit.mutablePage
      modifies this, tlb, changed, jit, jit.Index(), jit.pageEvents, jit.mutablePage
      ensures Valid() && jit.Valid() && ok == (on ==> cb.Some?)
      ensures ok ==> translate == cb && enabled == on && dirty == {} && (forall p: byte :: !tlb[p].valid)
      ensures ok && !inRun ==> !jit.needsFlush && jit.pending == [] && !jit.overflow && jit.useJit == old(jit.useJit)
                               && forall i :: 0 <= i < CACHE_SIZE ==> jit.blocks[i].None?
      ensures ok && inRun ==> jit.needsFlush && !jit.useJit
    {
      hide TableOk, Count, Agrees;
      if on && cb.None? {
        return false;
      }
      Install(cb, on);
      JitFlush(jit, inRun);
      ok := true;
    }

    /** The MMU half of rk65c02_mmu_set, and all of rk65c02_mmu_clear. */
    method Install(cb: Option<Callback>, on: bool)
      requires Valid()
      modifies this, tlb, changed
      ensures Valid() && translate == cb && enabled == on && dirty == {} && forall p: byte :: !tlb[p].valid
    {
      translate, enabled, updatePending, changedAll := cb, on, false, false;
      dirty := {};
      forall p | 0 <= p < 256 { changed[p] := false; }
      epoch := (epoch + 1) % 0x1_0000_0000;
      forall p | 0 <= p < 256 { tlb[p] := BLANK; }
    }

    /** rk65c02_jit_flush. */
    static method JitFlush(jit: CodeCache, inRun: bool)
      requires jit.Valid()
      modifies jit, jit.Index(), jit.pageEvents, jit.mutablePage
      ensures jit.Valid()
      ensures inRun ==> jit.needsFlush && !jit.useJit && jit.View() == old(jit.View())
      ensures !inRun ==> !jit.needsFlush && jit.pending == [] && !jit.overflow && jit.useJit == old(jit.useJit)
                         && forall i :: 0 <= i < CACHE_SIZE ==> jit.blocks[i].None?
    {
      if inRun {
        jit.RequestFlush();
      } else {
        jit.Flush();
      }
    }

    /** rk65c02_mmu_begin_update; marks made earlier are lost. */
    method BeginUpdate()
      requires Valid()
      modifies this`updatePending, this`changedAll, changed
      ensures Valid()
      ensures enabled ==> updatePending && !changedAll && forall p: byte :: !changed[p]
      ensures !enabled ==> updatePending == old(updatePending) && changedAll == old(changedAll) && changed[..] == old(changed[..])
    {
      if enabled {
        updatePending, changedAll := true, false;
        forall p | 0 <= p < 256 { changed[p] := false; }
      }
    }

    /** rk65c02_mmu_mark_changed_vpage and _vrange. */
    method MarkChanged(k: Mark)
      requires Valid()
      modifies this`updatePending, this`changedAll, changed
      ensures Valid()
      ensures !enabled ==> updatePending == old(updatePending) && changedAll == old(changedAll) && changed[..] == old(changed[..])
      ensures enabled ==> updatePending && forall p: byte :: IsMarked(p) <==> old(IsMarked(p)) || Marks(k, p)
      ensures enabled ==> forall p: byte :: IsMarked(p) <==> old(IsMarked(p)) || HoldsReported([k], p)
    {
      forall p: byte
        ensures Marks(k, p) <==> HoldsReported([k], p)
      {
        MarkedOne(k, p);
      }
      if !enabled {
        return;
      }
      updatePending := true;
      match k {
        case MarkPage(q) => changed[q] := true;
        case MarkRange(s, e) =>
          if s <= e {
            for p := s / 256 to e / 256 + 1
              invariant updatePending && changedAll == old(changedAll)
              invariant forall q: byte :: changed[q] <==> old(changed[q]) || s / 256 <= q < p
            {
              changed[p] := true;
            }
          } else {
            changedAll := true;
          }
      }
    }

    /** The update being collected will drop the page. */
    ghost predicate IsMarked(p: byte)
      requires changed.Length == 256
      reads this, changed
    {
      changedAll || changed[p]
    }

    /** rk65c02_mmu_end_update. In a running block (`inRun`) the code cache is
        only asked for a full flush after the block (`deferred`), and use_jit is
        cleared so that the block returns. */
    method EndUpdate(jit: CodeCache, inRun: bool) returns (deferred: bool)
      requires Valid() && jit.Valid() && changed != jit.mutablePage
      modifies this`updatePending, this`changedAll, this`epoch, this`dirty, tlb, changed
      modifies jit, jit.Index(), jit.pageEvents, jit.mutablePage
      ensures Valid() && jit.Valid()
      ensures !enabled || !old(updatePending) ==>
                jit.View() == old(jit.View()) && tlb[..] == old(tlb[..]) && dirty == old(dirty) && !deferred
      ensures enabled && old(updatePending) ==>
                && !updatePending && (forall p: byte :: !IsMarked(p))
                && (forall p: byte :: old(IsMarked(p)) ==> !tlb[p].valid && p !in dirty) && dirty <= old(dirty)
                && (forall p: byte :: !old(IsMarked(p)) ==> tlb[p] == old(tlb[p]))
                && (deferred ==> inRun && jit.needsFlush)
                && (inRun ==> jit.View() == old(jit.View()))
                && (forall p: byte :: inRun && old(IsMarked(p)) ==> deferred)
                && (!inRun ==> Dropped(jit.blocks[..], old(jit.blocks[..]), old(changedAll), old(changed[..])))
      ensures inRun ==> jit.pending == old(jit.pending) && jit.overflow == old(jit.overflow)
      ensures jit.useJit == (old(jit.useJit) && !deferred)
      ensures !inRun ==> (jit.pending == old(jit.pending) || jit.pending == []) && (jit.overflow ==> old(jit.overflow))
                         && (jit.needsFlush ==> old(jit.needsFlush))
    {
      hide TableOk, Count, Agrees, CodeGone, Dropped;
      deferred := false;
      if !enabled || !updatePending {
        return;
      }
      updatePending := false;
      DropTlb();
      assert jit.blocks[..] == old(jit.blocks[..]) && changed[..] == old(changed[..]);
      deferred := DropCode(jit, inRun);
      assert forall p: byte :: IsMarked(p) == old(IsMarked(p));
      ghost var after := jit.blocks[..];
      changedAll := false;
      forall p | 0 <= p < 256 { changed[p] := false; }
      assert jit.blocks[..] == after;
    }

    /** The TLB half of the update. */
    method DropTlb()
      requires Valid()
      modifies this`epoch, this`dirty, tlb
      ensures Valid() && dirty <= old(dirty)
      ensures forall p: byte :: IsMarked(p) ==> !tlb[p].valid && p !in dirty
      ensures forall p: byte :: !IsMarked(p) ==> tlb[p] == old(tlb[p])
    {
      hide Agrees;
      if changedAll {
        epoch := (epoch + 1) % 0x1_0000_0000;
        forall p | 0 <= p < 256 { tlb[p] := BLANK; }
        dirty := {};
      } else {
        for p := 0 to 256
          invariant Valid() && dirty <= old(dirty) && epoch == old(epoch)
          invariant forall q: byte :: q < p && changed[q] ==> !tlb[q].valid && q !in dirty
          invariant forall q: byte :: q >= p || !changed[q] ==> tlb[q] == old(tlb[q])
        {
          if changed[p] {
            FlushPage(p);
            dirty := dirty - {p};
          }
        }
      }
    }

    /** The code-cache half of the update. */
    method DropCode(jit: CodeCache, inRun: bool) returns (deferred: bool)
      requires Valid() && jit.Valid() && changed != jit.mutablePage
      modifies jit, jit.Index(), jit.pageEvents, jit.mutablePage
      ensures jit.Valid() && (deferred ==> inRun && jit.needsFlush)
      ensures forall p: byte :: inRun && IsMarked(p) ==> deferred
      ensures jit.useJit == (old(jit.useJit) && !deferred)
      ensures inRun ==> jit.View() == old(jit.View()) && jit.pending == old(jit.pending) && jit.overflow == old(jit.overflow)
      ensures !inRun ==> (jit.pending == old(jit.pending) || jit.pending == []) && (jit.overflow ==> old(jit.overflow))
                         && (jit.needsFlush ==> old(jit.needsFlush))
      ensures !inRun ==> Dropped(jit.blocks[..], old(jit.blocks[..]), changedAll, changed[..])
    {
      hide TableOk, Count, Agrees;
      deferred := false;
      if inRun {
        deferred := AnyMarked();
        if deferred {
          jit.RequestFlush();
        }
      } else if changedAll {
        jit.Flush();
      } else {
        DropPages(jit);
        CodeGoneDrops(jit.blocks[..], old(jit.blocks[..]), changed[..]);
      }
    }

    /** A whole begin/mark/end bracket around a change of the host's mapping. */
    method Update(cb: Callback, ks: seq<Mark>, jit: CodeCache, inRun: bool) returns (deferred: bool)
      requires Valid() && jit.Valid() && changed != jit.mutablePage && enabled && translate.Some?
      requires forall p: byte :: !Marked(ks, p) ==> SameOnPage(translate.value, cb, p)
      modifies this`translate, this`updatePending, this`changedAll, this`epoch, this`dirty, tlb, changed
      modifies jit, jit.Index(), jit.pageEvents, jit.mutablePage
      ensures Valid() && jit.Valid() && translate == Some(cb) && dirty <= old(dirty)
      ensures forall p: byte :: Marked(ks, p) ==> !tlb[p].valid && p !in dirty
      ensures forall v: word :: Reported(ks, v) ==> !tlb[v / 256].valid
      ensures forall p: byte :: !HoldsReported(ks, p) ==> tlb[p] == old(tlb[p])
      ensures deferred ==> inRun && jit.needsFlush
      ensures inRun ==> jit.View() == old(jit.View()) && (ks != [] ==> deferred)
      ensures jit.useJit == (old(jit.useJit) && !deferred)
      ensures inRun ==> jit.pending == old(jit.pending) && jit.overflow == old(jit.overflow)
      ensures !inRun ==> (jit.pending == old(jit.pending) || jit.pending == []) && (jit.overflow ==> old(jit.overflow))
                         && (jit.needsFlush ==> old(jit.needsFlush))
      ensures !inRun ==> SurvivorsUnmarked(jit.blocks[..], old(jit.blocks[..]), ks)
      ensures !inRun ==> CodeByAddress(jit.blocks[..], old(jit.blocks[..]), ks)
    {
      hide TableOk, Count, Agrees, SameOnPage, Marks, Reported, CodeByAddress;
      forall p: byte
        ensures Marked(ks, p) <==> HoldsReported(ks, p)
      {
        MarkedIff(ks, p);
      }
      ghost var pages := set p: byte | Marked(ks, p);
      HostChanges(cb, pages);
      BeginUpdate();
      MarkAll(ks);
      ghost var marked := changed[..];
      ghost var all := changedAll;
      assert jit.blocks[..] == old(jit.blocks[..]);
      assert ks != [] ==> exists p: byte :: Marked(ks, p) by { MarksSome(ks); }
      deferred := EndUpdate(jit, inRun);
      if !inRun {
        DroppedUnmarked(jit.blocks[..], old(jit.blocks[..]), all, marked, ks);
        SurvivorsByAddress(jit.blocks[..], old(jit.blocks[..]), ks);
      }
    }

    /** The bracket around a change of one range: afterwards no entry translates
        and no block covers an address of it, and what lies on other pages is as
        it was. A range that wraps is the whole address space. */
    method UpdateRange(cb: Callback, start: word, end: word, jit: CodeCache)
      requires Valid() && jit.Valid() && changed != jit.mutablePage && enabled && translate.Some?
      requires forall v: word, acc :: start <= end && (v / 256 < start / 256 || end / 256 < v / 256) ==>
                 translate.value(v, acc) == cb(v, acc)
      modifies this`translate, this`updatePending, this`changedAll, this`epoch, this`dirty, tlb, changed
      modifies jit, jit.Index(), jit.pageEvents, jit.mutablePage
      ensures Valid() && jit.Valid() && translate == Some(cb)
      ensures forall v: word :: start > end || start <= v <= end ==> !tlb[v / 256].valid
      ensures forall i, v: word :: 0 <= i < CACHE_SIZE && jit.blocks[i].Some? && (start > end || start <= v <= end) ==>
                !Covers(jit.blocks[i].value, v)
      ensures forall p: byte :: start <= end && (p < start / 256 || end / 256 < p) ==> tlb[p] == old(tlb[p])
      ensures forall i :: 0 <= i < CACHE_SIZE && old(jit.blocks[i]).Some? && start <= end
                          && (old(jit.blocks[i]).value.start / 256 < start / 256 || end / 256 < old(jit.blocks[i]).value.start / 256)
                          ==> jit.blocks[i] == old(jit.blocks[i])
    {
      hide TableOk, Count, Agrees, Marked, SurvivorsUnmarked, Covers, Reported, HoldsReported;
      var ks := [MarkRange(start, end)];
      RangePages(start, end);
      forall p: byte | !Marked(ks, p)
        ensures SameOnPage(translate.value, cb, p)
      {
        MarkedIff(ks, p);
      }
      var _ := Update(cb, ks, jit, false);
      assert forall i :: 0 <= i < CACHE_SIZE ==> jit.blocks[..][i] == jit.blocks[i];
      forall i, v: word | 0 <= i < CACHE_SIZE && jit.blocks[i].Some? && (start > end || start <= v <= end)
        ensures !Covers(jit.blocks[i].value, v)
      {
        assert Reported(ks, v) && jit.blocks[..][i].Some?;
      }
    }

    /** TLB transparency: through any history of accesses, TLB switching, flushes
        and bracketed remaps, every answer is the callback's own. */
    method Replay(acts: seq<Action>, jit: CodeCache) returns (out: seq<Outcome>)
      requires Valid() && jit.Valid() && changed != jit.mutablePage && enabled && translate.Some? && dirty == {}
      requires Honest(translate.value, acts)
      modifies this, tlb, changed, jit, jit.Index(), jit.pageEvents, jit.mutablePage
      ensures Valid() && jit.Valid() && dirty == {} && out == Answers(old(translate).value, acts)
    {
      hide TableOk, Count, Agrees, SameOnPage, Direct, Uniform;
      out := [];
      for j := 0 to |acts|
        invariant Valid() && jit.Valid() && enabled && translate.Some? && dirty == {}
        invariant Honest(translate.value, acts[j..])
        invariant out + Answers(translate.value, acts[j..]) == Answers(old(translate).value, acts)
      {
        assert acts[j..][0] == acts[j] && acts[j..][1..] == acts[j + 1..];
        ghost var ahead := out + Answers(translate.value, acts[j..]);
        out := DoAction(acts[j], out, jit);
        assert out + Answers(translate.value, acts[j + 1..]) == ahead;
      }
      assert acts[|acts|..] == [];
    }

    /** One action of a history; an access appends its answer. */
    method DoAction(a: Action, before: seq<Outcome>, jit: CodeCache) returns (out: seq<Outcome>)
      requires Valid() && jit.Valid() && changed != jit.mutablePage && enabled && translate.Some? && dirty == {}
      requires Uniform(translate.value)
      requires a.DoRemap? ==> forall p: byte :: !Marked(a.ks, p) ==> SameOnPage(translate.value, a.cb, p)
      modifies this, tlb, changed, jit, jit.Index(), jit.pageEvents, jit.mutablePage
      ensures Valid() && jit.Valid() && enabled && dirty == {}
      ensures translate == if a.DoRemap? then Some(a.cb) else old(translate)
      ensures out == before + if a.DoAccess? then [Direct(old(translate), a.v, a.acc)] else []
    {
      hide TableOk, Count, Agrees, SameOnPage, Direct;
      out := before;
      match a {
        case DoAccess(v, acc) =>
          var o := TranslateAddr(v, acc);
          out := out + [o];
        case DoTlb(on) => SetTlb(on);
        case DoFlush => FlushTlb();
        case DoFlushPage(p) => FlushPage(p);
        case DoRemap(cb, ks) => var _ := Update(cb, ks, jit, false);
      }
    }

    method MarkAll(ks: seq<Mark>)
      requires Valid() && enabled && updatePending
      modifies this`updatePending, this`changedAll, changed
      ensures Valid() && updatePending
      ensures forall p: byte :: IsMarked(p) <==> old(IsMarked(p)) || Marked(ks, p)
    {
      hide Marks, Agrees;
      for j := 0 to |ks|
        invariant Valid() && updatePending
        invariant forall p: byte :: IsMarked(p) <==> old(IsMarked(p)) || Marked(ks[..j], p)
      {
        forall p: byte
          ensures Marked(ks[..j + 1], p) <==> Marked(ks[..j], p) || Marks(ks[j], p)
        {
          MarkedMore(ks, j, p);
        }
        MarkChanged(ks[j]);
      }
      assert ks[..|ks|] == ks;
    }

    method AnyMarked() returns (any: bool)
      requires changed.Length == 256
      ensures any <==> changedAll || exists p: byte :: changed[p]
    {
      any := changedAll;
      for p := 0 to 256
        invariant any <==> changedAll || exists q: byte :: q < p && changed[q]
      {
        if changed[p] {
          any := true;
        }
      }
    }

    method DropPages(jit: CodeCache)
      requires changed.Length == 256 && jit.Valid() && changed != jit.mutablePage
      modifies jit`physTotal, jit`active, jit.Index()
      ensures jit.Valid() && CodeGone(jit.blocks[..], old(jit.blocks[..]), changed[..], 256)
    {
      hide TableOk, Count;
      ghost var bs := jit.blocks[..];
      for p := 0 to 256
        invariant jit.Valid() && CodeGone(jit.blocks[..], bs, changed[..], p)
      {
        if changed[p] {
          ghost var now := jit.blocks[..];
          jit.InvalidateCodePage(p);
          CodeGoneStep(jit.blocks[..], now, bs, changed[..], p);
        }
      }
    }
  }

  lemma CodeGoneStep(after: seq<Option<Block>>, now: seq<Option<Block>>, before: seq<Option<Block>>, gone: seq<bool>, p: nat)
    requires p < |gone| == 256 && gone[p] && CodeGone(now, before, gone, p) && after == Without(now, ByCodePage(p))
    ensures CodeGone(after, before, gone, p + 1)
  {}

  /** Exactly the blocks with code on a remapped page are gone. */
  predicate Dropped(after: seq<Option<Block>>, before: seq<Option<Block>>, all: bool, gone: seq<bool>)
    requires |gone| == 256
  {
    && |after| == |before|
    && forall i :: 0 <= i < |before| ==>
         after[i] == if before[i].Some? && (all || gone[before[i].value.start / 256]) then None else before[i]
  }

  lemma CodeGoneDrops(after: seq<Option<Block>>, before: seq<Option<Block>>, gone: seq<bool>)
    requires |gone| == 256 && CodeGone(after, before, gone, 256)
    ensures Dropped(after, before, false, gone)
  {}

  lemma MarkedMore(ks: seq<Mark>, j: nat, p: byte)
    requires j < |ks|
    ensures Marked(ks[..j + 1], p) <==> Marked(ks[..j], p) || Marks(ks[j], p)
  {
    hide Marks;
    if Marked(ks[..j], p) {
      var k :| 0 <= k < j && Marks(ks[..j][k], p);
      assert Marks(ks[..j + 1][k], p);
    }
    if Marked(ks[..j + 1], p) && !Marks(ks[j], p) {
      var k :| 0 <= k < j + 1 && Marks(ks[..j + 1][k], p);
      assert Marks(ks[..j][k], p);
    }
    assert ks[..j + 1][j] == ks[j];
  }

  /** The addresses of a range, and the pages that hold none of them. */
  lemma RangePages(start: word, end: word)
    ensures forall v: word :: Reported([MarkRange(start, end)], v) <==> start > end || start <= v <= end
    ensures forall p: byte :: HoldsReported([MarkRange(start, end)], p) <==> start > end || start / 256 <= p <= end / 256
  {
    var ks := [MarkRange(start, end)];
    forall v: word
      ensures Reported(ks, v) <==> start > end || start <= v <= end
    {
      assert Within(ks[0], v) <==> start > end || start <= v <= end;
    }
    forall p: byte
      ensures HoldsReported(ks, p) <==> start > end || start / 256 <= p <= end / 256
    {
      MarkedOne(ks[0], p);
    }
  }

  lemma MarkedOne(k: Mark, p: byte)
    ensures Marks(k, p) <==> HoldsReported([k], p)
  {
    hide Marks;
    MarkedIff([k], p);
    assert [k][0] == k;
  }

  lemma MarksSome(ks: seq<Mark>)
    ensures ks != [] ==> exists p: byte :: Marked(ks, p)
  {
    if ks != [] {
      var p: byte := if ks[0].MarkPage? then ks[0].p else ks[0].start / 256;
      assert Marks(ks[0], p) && Marked(ks, p);
    }
  }

  /** Exactly the blocks with code on a marked page are gone. */
  predicate SurvivorsUnmarked(after: seq<Option<Block>>, before: seq<Option<Block>>, ks: seq<Mark>) {
    && |after| == |before|
    && forall i :: 0 <= i < |before| ==>
         after[i] == if before[i].Some? && Marked(ks, before[i].value.start / 256) then None else before[i]
  }

  /** By addresses: no block that is left covers a reported one, and a block goes
      only if its page holds one. */
  ghost predicate CodeByAddress(after: seq<Option<Block>>, before: seq<Option<Block>>, ks: seq<Mark>) {
    && |after| == |before|
    && (forall i, v: word :: 0 <= i < |after| && after[i].Some? && Reported(ks, v) ==> !Covers(after[i].value, v))
    && (forall i :: 0 <= i < |before| && before[i].Some? && !HoldsReported(ks, before[i].value.start / 256) ==>
          after[i] == before[i])
  }

  lemma SurvivorsByAddress(after: seq<Option<Block>>, before: seq<Option<Block>>, ks: seq<Mark>)
    requires SurvivorsUnmarked(after, before, ks) && TableOk(before)
    ensures CodeByAddress(after, before, ks)
  {
    hide Marked, Reported, WellBuilt, Covers, Genuine, TagFits;
    forall p: byte
      ensures Marked(ks, p) <==> HoldsReported(ks, p)
    {
      MarkedIff(ks, p);
    }
    forall i, v: word | 0 <= i < |after| && after[i].Some? && Reported(ks, v)
      ensures !Covers(after[i].value, v)
    {
      assert BlockOk(before[i].value, i);
      if Covers(before[i].value, v) {
        CoveredPage(before[i].value, v);
      }
    }
  }

  lemma CoveredPage(b: Block, v: word)
    requires WellBuilt(b) && Covers(b, v)
    ensures v / 256 == b.start / 256
  {
    hide Decoded, Straight, Len;
  }

  lemma DroppedUnmarked(after: seq<Option<Block>>, before: seq<Option<Block>>, all: bool, gone: seq<bool>, ks: seq<Mark>)
    requires |gone| == 256 && Dropped(after, before, all, gone)
    requires forall p: byte :: Marked(ks, p) <==> all || gone[p]
    ensures SurvivorsUnmarked(after, before, ks)
  {
    hide Marked;
  }

  lemma AgreesAt(e: Entry, p: byte, cb: Option<Callback>, v: word, acc: Access)
    requires Agrees(e, p, cb) && v / 256 == p
    ensures HitOutcome(e, v, acc) == Direct(cb, v, acc)
  {}

  lemma FillAgrees(cb: Callback, v: word, acc: Access, epoch: nat)
    requires PageUniform(cb, v / 256) && Fills(cb, v, acc)
    ensures Agrees(Filled(cb(v, acc), v, epoch), v / 256, Some(cb))
  {
    hide Direct, PageUniform;
    UniformIffFillsAgree(cb, v / 256);
    var e0, e := Filled(cb(v, acc), v, 0), Filled(cb(v, acc), v, epoch);
    assert Agrees(e0, v / 256, Some(cb));
    forall w: word, a | w / 256 == v / 256
      ensures HitOutcome(e, w, a) == Direct(Some(cb), w, a)
    {
      assert HitOutcome(e0, w, a) == Direct(Some(cb), w, a);
    }
  }

  lemma AgreesMoves(e: Entry, p: byte, f: Callback, g: Callback)
    requires Agrees(e, p, Some(f)) && SameOnPage(f, g, p)
    ensures Agrees(e, p, Some(g))
  {
    forall v: word, acc | v / 256 == p
      ensures HitOutcome(e, v, acc) == Direct(Some(g), v, acc)
    {
      assert f(v, acc) == g(v, acc) && HitOutcome(e, v, acc) == Direct(Some(f), v, acc);
    }
  }
}
