/** How the segregated free lists are stored: links threaded through block headers, list heads in tlsf_array,
    and a two-level bitmap of the non-empty lists. */
module FreeIndex {
  import opened Words
  import opened SizeClass
  import opened Arena
  import opened Allocator

  /** The header one reads at a heap address. */
  datatype Header = Header(prevPhys: nat, size: nat, free: bool, prev: nat, next: nat)
  type Memory = map<nat, Header>

  ghost predicate HeapMemory(mem: Memory) {
    forall x {:trigger x in mem} :: BASE <= x < END ==> x in mem
  }

  function At(l: seq<nat>, i: int): nat {
    if 0 <= i < |l| then l[i] else NULL
  }

  ghost predicate LinkOk(mem: Memory, l: seq<nat>, i: nat)
    requires i < |l|
  {
    l[i] != NULL && l[i] in mem && mem[l[i]].prev == At(l, i - 1) && mem[l[i]].next == At(l, i + 1)
  }

  /** A doubly linked list: entry i points back to entry i-1 and on to entry i+1, NULL at the ends. */
  ghost predicate Chain(mem: Memory, l: seq<nat>) {
    forall i {:trigger LinkOk(mem, l, i)} :: 0 <= i < |l| ==> LinkOk(mem, l, i)
  }

  /** No address occurs twice, neither in one list nor in two. */
  ghost predicate Apart(lists: seq<seq<nat>>) {
    && (forall c :: 0 <= c < |lists| ==> NoDup(lists[c]))
    && (forall c, d, x :: 0 <= c < |lists| && 0 <= d < |lists| && x in lists[c] && x in lists[d] ==> c == d)
  }

  ghost predicate Linked(mem: Memory, heads: seq<nat>, lists: seq<seq<nat>>) {
    && |heads| == |lists| == TLSF_SIZE
    && Apart(lists)
    && forall c {:trigger lists[c]} :: 0 <= c < TLSF_SIZE ==> heads[c] == At(lists[c], 0) && Chain(mem, lists[c])
  }

  /** Bit s of the second-level word f is set iff list 32f+s is non-empty; bit f+6 of the first-level word is set
      iff second-level word f is non-zero; no other bit is set. */
  ghost predicate Mapped(fBitmap: nat, sBitmap: seq<nat>, lists: seq<seq<nat>>) {
    && |sBitmap| == OCTAVES && |lists| == TLSF_SIZE
    && fBitmap < WORD
    && (forall f {:trigger sBitmap[f]} :: 0 <= f < OCTAVES ==> sBitmap[f] < WORD)
    && (forall f, s {:trigger TestBit(sBitmap[f], s)} :: 0 <= f < OCTAVES && 0 <= s < SL_COUNT ==>
          (TestBit(sBitmap[f], s) <==> lists[f * SL_COUNT + s] != []))
    && (forall k {:trigger TestBit(fBitmap, k)} :: 0 <= k < 32 ==>
          (TestBit(fBitmap, k) <==> LIN - 1 <= k < FL_COUNT && sBitmap[k - (LIN - 1)] != 0))
  }

  // ---------------------------------------------------------------- links

  /** Physical fields agree; only the list links may differ. */
  ghost predicate SameTags(m: Memory, m': Memory) {
    && m.Keys == m'.Keys
    && forall x {:trigger m'[x]} :: x in m ==>
      m'[x].size == m[x].size && m'[x].free == m[x].free && m'[x].prevPhys == m[x].prevPhys
  }

  function SetPrev(mem: Memory, x: nat, p: nat): Memory
    requires x != NULL ==> x in mem
  {
    if x == NULL then mem else mem[x := mem[x].(prev := p)]
  }

  function SetNext(mem: Memory, x: nat, n: nat): Memory
    requires x != NULL ==> x in mem
  {
    if x == NULL then mem else mem[x := mem[x].(next := n)]
  }

  lemma ChainSame(m: Memory, m': Memory, l: seq<nat>)
    requires Chain(m, l)
    requires forall x :: x in l && x in m ==> x in m' && m'[x].prev == m[x].prev && m'[x].next == m[x].next
    ensures Chain(m', l)
  {
    forall i | 0 <= i < |l| ensures LinkOk(m', l, i) {
      assert LinkOk(m, l, i) && l[i] in l;
    }
  }

  /** The memory after b was put in front of the chain starting at head. */
  function PushLinks(mem: Memory, head: nat, b: nat): Memory
    requires b in mem && (head != NULL ==> head in mem)
  {
    SetPrev(mem[b := mem[b].(prev := NULL, next := head)], head, b)
  }

  /** The memory after the neighbours p and n of an entry were joined. */
  function JoinLinks(mem: Memory, p: nat, n: nat): Memory
    requires (p != NULL ==> p in mem) && (n != NULL ==> n in mem)
  {
    SetPrev(SetNext(mem, p, n), n, p)
  }

  lemma ChainPush(mem: Memory, l: seq<nat>, b: nat)
    requires Chain(mem, l) && NoDup(l) && b in mem && b != NULL && b !in l
    ensures At(l, 0) != NULL ==> At(l, 0) in mem
    ensures Chain(PushLinks(mem, At(l, 0), b), [b] + l)
  {
    var l' := [b] + l;
    assert l != [] ==> LinkOk(mem, l, 0);
    var m := PushLinks(mem, At(l, 0), b);
    forall i | 0 <= i < |l'| ensures LinkOk(m, l', i) {
      if i > 0 {
        assert l'[i] == l[i - 1] && LinkOk(mem, l, i - 1);
        assert At(l', i + 1) == At(l, i);
      }
    }
  }

  lemma ChainNeighbours(mem: Memory, l: seq<nat>, k: nat)
    requires Chain(mem, l) && k < |l|
    ensures LinkOk(mem, l, k)
    ensures At(l, k - 1) != NULL <==> k > 0
    ensures At(l, k + 1) != NULL <==> k + 1 < |l|
    ensures k > 0 ==> At(l, k - 1) in l && LinkOk(mem, l, k - 1)
    ensures k + 1 < |l| ==> At(l, k + 1) in l && LinkOk(mem, l, k + 1)
  {
    assert LinkOk(mem, l, k);
    assert k > 0 ==> LinkOk(mem, l, k - 1);
    assert k + 1 < |l| ==> LinkOk(mem, l, k + 1);
  }

  lemma ChainRemove(mem: Memory, l: seq<nat>, k: nat)
    requires Chain(mem, l) && NoDup(l) && k < |l|
    ensures (At(l, k - 1) != NULL ==> At(l, k - 1) in mem) && (At(l, k + 1) != NULL ==> At(l, k + 1) in mem)
    ensures Chain(JoinLinks(mem, At(l, k - 1), At(l, k + 1)), l[..k] + l[k + 1..])
  {
    var l' := l[..k] + l[k + 1..];
    ChainNeighbours(mem, l, k);
    var m := JoinLinks(mem, At(l, k - 1), At(l, k + 1));
    forall i | 0 <= i < |l'| ensures LinkOk(m, l', i) {
      var j := if i < k then i else i + 1;
      assert l'[i] == l[j] && LinkOk(mem, l, j);
      assert At(l', i - 1) == if j == k + 1 then At(l, k - 1) else At(l, j - 1);
      assert At(l', i + 1) == if j == k - 1 then At(l, k + 1) else At(l, j + 1);
    }
  }

  lemma LinkedPush(mem: Memory, heads: seq<nat>, lists: seq<seq<nat>>, c: nat, b: nat)
    requires Linked(mem, heads, lists) && c < TLSF_SIZE
    requires b in mem && b != NULL && forall d :: 0 <= d < TLSF_SIZE ==> b !in lists[d]
    ensures heads[c] != NULL ==> heads[c] in mem
    ensures Linked(PushLinks(mem, heads[c], b), heads[c := b], Push(lists, c, b))
    ensures SameTags(mem, PushLinks(mem, heads[c], b))
  {
    var l, ls := lists[c], Push(lists, c, b);
    ChainPush(mem, l, b);
    var m := PushLinks(mem, heads[c], b);
    forall d | 0 <= d < TLSF_SIZE ensures heads[c := b][d] == At(ls[d], 0) && Chain(m, ls[d]) {
      if d != c {
        assert l != [] ==> l[0] in l;
        ChainSame(mem, m, lists[d]);
      }
    }
    assert Apart(ls);
  }

  lemma ApartRemove(lists: seq<seq<nat>>, c: nat, b: nat)
    requires Apart(lists) && c < |lists|
    ensures Apart(Remove(lists, c, b))
  {
    var ls := Remove(lists, c, b);
    WithoutSpec(lists[c], b);
    assert forall d, x :: 0 <= d < |ls| && x in ls[d] ==> x in lists[d];
  }

  lemma LinkedRemove(mem: Memory, heads: seq<nat>, lists: seq<seq<nat>>, c: nat, k: nat)
    requires Linked(mem, heads, lists) && c < TLSF_SIZE && k < |lists[c]|
    ensures LinkOk(mem, lists[c], k)
    ensures var b := lists[c][k]; var p, n := mem[b].prev, mem[b].next;
            && (p != NULL ==> p in mem) && (n != NULL ==> n in mem) && (p == NULL <==> k == 0)
            && var m := JoinLinks(mem, p, n);
            && Linked(m, if p == NULL then heads[c := n] else heads, Remove(lists, c, b)) && SameTags(mem, m)
  {
    var l, b := lists[c], lists[c][k];
    var ls := Remove(lists, c, b);
    ChainNeighbours(mem, l, k);
    WithoutAt(l, k);
    ChainRemove(mem, l, k);
    ApartRemove(lists, c, b);
    var p, n := mem[b].prev, mem[b].next;
    var m := JoinLinks(mem, p, n);
    var hs := if p == NULL then heads[c := n] else heads;
    forall d | 0 <= d < TLSF_SIZE ensures hs[d] == At(ls[d], 0) && Chain(m, ls[d]) {
      if d != c {
        ChainSame(mem, m, lists[d]);
      }
    }
  }

  // ---------------------------------------------------------------- bitmaps

  lemma WordZero(w: nat)
    requires w < WORD
    ensures w == 0 <==> forall j :: 0 <= j < 32 ==> !TestBit(w, j)
  {
    WordIsPow2();
    ShrZero(w, 0, 32);
  }

  lemma MappedPush(fb: nat, sb: seq<nat>, lists: seq<seq<nat>>, p: ClassPos, b: nat)
    requires Mapped(fb, sb, lists) && p.Valid()
    ensures var f := p.leader - (LIN - 1);
            Mapped(SetBit(fb, p.leader), sb[f := SetBit(sb[f], p.sub)], Push(lists, p.Index(), b))
  {
    hide TestBit, SetBit;
    var f := p.leader - (LIN - 1);
    var w := SetBit(sb[f], p.sub);
    var sb', fb', ls := sb[f := w], SetBit(fb, p.leader), Push(lists, p.Index(), b);
    WordIsPow2();
    BitUpdatesFit(fb, p.leader, 32);
    BitUpdatesFit(sb[f], p.sub, 32);
    BitUpdates(sb[f], p.sub, p.sub);
    WordZero(w);
    forall g, s | 0 <= g < OCTAVES && 0 <= s < SL_COUNT
      ensures TestBit(sb'[g], s) <==> ls[g * SL_COUNT + s] != [] {
      BitUpdates(sb[f], p.sub, s);
      assert TestBit(sb[g], s) <==> lists[g * SL_COUNT + s] != [];
    }
    forall k | 0 <= k < 32
      ensures TestBit(fb', k) <==> LIN - 1 <= k < FL_COUNT && sb'[k - (LIN - 1)] != 0 {
      BitUpdates(fb, p.leader, k);
    }
  }

  lemma ClearedBit(sb: seq<nat>, lists: seq<seq<nat>>, p: ClassPos, g: nat, s: nat)
    requires p.Valid() && |sb| == OCTAVES && |lists| == TLSF_SIZE && g < OCTAVES && s < SL_COUNT
    requires TestBit(sb[g], s) <==> lists[g * SL_COUNT + s] != []
    ensures var f := p.leader - (LIN - 1);
            TestBit(sb[f := ClearBit(sb[f], p.sub)][g], s) <==> lists[p.Index() := []][g * SL_COUNT + s] != []
  {
    hide TestBit, ClearBit, SetBit;
    BitUpdates(sb[p.leader - (LIN - 1)], p.sub, s);
  }

  /** The bitmap update after list p lost its last entry. */
  lemma MappedClear(fb: nat, sb: seq<nat>, lists: seq<seq<nat>>, p: ClassPos, ls: seq<seq<nat>>)
    requires Mapped(fb, sb, lists) && p.Valid()
    requires ls == lists[p.Index() := []]
    ensures var f := p.leader - (LIN - 1);
            var w := ClearBit(sb[f], p.sub);
            Mapped(if w == 0 then ClearBit(fb, p.leader) else fb, sb[f := w], ls)
  {
    hide TestBit, ClearBit, SetBit;
    var f := p.leader - (LIN - 1);
    var w := ClearBit(sb[f], p.sub);
    var sb', fb' := sb[f := w], if w == 0 then ClearBit(fb, p.leader) else fb;
    WordIsPow2();
    BitUpdatesFit(fb, p.leader, 32);
    BitUpdatesFit(sb[f], p.sub, 32);
    WordZero(sb[f]);
    WordZero(w);
    forall j | 0 <= j < 32 ensures TestBit(w, j) ==> TestBit(sb[f], j) {
      BitUpdates(sb[f], p.sub, j);
    }
    forall g, s | 0 <= g < OCTAVES && 0 <= s < SL_COUNT
      ensures TestBit(sb'[g], s) <==> ls[g * SL_COUNT + s] != [] {
      assert TestBit(sb[g], s) <==> lists[g * SL_COUNT + s] != [];
      ClearedBit(sb, lists, p, g, s);
    }
    forall k | 0 <= k < 32
      ensures TestBit(fb', k) <==> LIN - 1 <= k < FL_COUNT && sb'[k - (LIN - 1)] != 0 {
      BitUpdates(fb, p.leader, k);
    }
  }

  /** Replacing one non-empty list by another non-empty one leaves the bitmaps right. */
  lemma MappedSame(fb: nat, sb: seq<nat>, lists: seq<seq<nat>>, c: nat, l: seq<nat>)
    requires Mapped(fb, sb, lists) && c < TLSF_SIZE && lists[c] != [] && l != []
    ensures Mapped(fb, sb, lists[c := l])
  {
  }
}
